/**
 * The scanner of src/lexer.c: a cursor (`start`, `current`) and a line counter over a
 * NUL-terminated source text.  The source is modelled by the characters before its
 * terminating NUL, so "at end" is `current == |source|` and peeking at the end yields '\0'.
 *
 * The first half of the module is a functional specification of one call of `scan_token`
 * (`Scan`), with the properties the scanner promises proved about it; the second half is
 * the class `Lexer`, whose methods follow the C helpers step by step and are proved to
 * compute `Scan`.
 */
module Lexing {

  // ---------------------------------------------------------------------------
  // Tokens (src/lexer.h)
  // ---------------------------------------------------------------------------

  datatype TokenKind =
    | LeftBrace | RightBrace
    | Equal | Newline
    | Arrow | DoubleArrow
    | Identifier | String
    | Error | Eof

  /**
   * A token: its kind, the text it stands for and the line it was scanned on.  For every
   * kind but `Error` the text is a slice of the source (without the quotes for `String`);
   * an `Error` token carries its message instead, as `error_token` does.
   */
  datatype Token = Token(kind: TokenKind, lexeme: string, line: int)

  /** The three fields of `lexer_t`. */
  datatype LexState = LexState(start: nat, current: nat, line: int)

  const UnterminatedString: string := "Unterminated string."
  const UnexpectedCharacter: string := "Unexpected character."

  /** The source of a C string: no character before the terminator is NUL. */
  predicate CString(src: string) {
    forall i | 0 <= i < |src| :: src[i] != '\0'
  }

  /** The character at offset `i`, or the terminating NUL at and past the end. */
  function CharAt(src: string, i: nat): char {
    if i < |src| then src[i] else '\0'
  }

  predicate IsAlphanum(c: char) {
    ('a' <= c <= 'z') || ('A' <= c <= 'Z') || ('0' <= c <= '9') || c == '_'
  }

  /** The characters `skip_whitespace` skips one at a time (newline is not among them). */
  predicate IsBlank(c: char) {
    c == ' ' || c == '\r' || c == '\t'
  }

  /** Whether a comment (slash-slash or slash-star) starts at offset `i`. */
  predicate CommentStart(src: string, i: nat) {
    CharAt(src, i) == '/' && (CharAt(src, i + 1) == '/' || CharAt(src, i + 1) == '*')
  }

  // ---------------------------------------------------------------------------
  // Specification of scanning
  // ---------------------------------------------------------------------------

  /** Where a slash-slash comment starting at or before `i` ends: the next newline, or the end. */
  function LineEnd(src: string, i: nat): (r: nat)
    requires i <= |src|
    ensures i <= r <= |src|
    ensures r == |src| || src[r] == '\n'
    decreases |src| - i
  {
    if i == |src| || src[i] == '\n' then i else LineEnd(src, i + 1)
  }

  /** `LineEnd` finds the first newline: there is none before it. */
  lemma {:induction false} LineEndIsFirstNewline(src: string, i: nat)
    requires i <= |src|
    ensures forall k | i <= k < LineEnd(src, i) :: src[k] != '\n'
    decreases |src| - i
  {
    if i < |src| && src[i] != '\n' {
      LineEndIsFirstNewline(src, i + 1);
    }
  }

  /** The first offset at or after `i` where a star-slash starts, or the end of the source. */
  function BlockEnd(src: string, i: nat): (r: nat)
    requires i <= |src|
    ensures i <= r <= |src|
    ensures r < |src| ==> src[r] == '*' && CharAt(src, r + 1) == '/'
    decreases |src| - i
  {
    if i == |src| || (src[i] == '*' && CharAt(src, i + 1) == '/') then i else BlockEnd(src, i + 1)
  }

  /** `BlockEnd` finds the first star-slash: there is none that starts before it. */
  lemma {:induction false} BlockEndIsFirstClose(src: string, i: nat)
    requires i <= |src|
    ensures forall k | i <= k < BlockEnd(src, i) :: !(src[k] == '*' && CharAt(src, k + 1) == '/')
    decreases |src| - i
  {
    if i < |src| && !(src[i] == '*' && CharAt(src, i + 1) == '/') {
      BlockEndIsFirstClose(src, i + 1);
    }
  }

  /**
   * Where `skip_whitespace` stops when called at offset `i`: blanks, slash-slash comments (up
   * to but not including the newline) and slash-star comments (through the closing star-slash,
   * or to the end of the source when unterminated) are skipped; it stops at anything else.
   */
  function SkipSpace(src: string, i: nat): (r: nat)
    requires i <= |src|
    ensures i <= r <= |src|
    ensures r == |src| || (!IsBlank(src[r]) && !CommentStart(src, r))
    decreases |src| - i
  {
    if i == |src| then i
    else if IsBlank(src[i]) then SkipSpace(src, i + 1)
    else if src[i] == '/' && CharAt(src, i + 1) == '/' then SkipSpace(src, LineEnd(src, i))
    else if src[i] == '/' && CharAt(src, i + 1) == '*' then
      var e := BlockEnd(src, i + 2);
      SkipSpace(src, if e < |src| then e + 2 else e)
    else i
  }

  /** The end of the run of identifier characters starting at `i`. */
  function IdentEnd(src: string, i: nat): (r: nat)
    requires i <= |src|
    ensures i <= r <= |src|
    ensures r == |src| || !IsAlphanum(src[r])
    decreases |src| - i
  {
    if i == |src| || !IsAlphanum(src[i]) then i else IdentEnd(src, i + 1)
  }

  /** Everything from `i` up to `IdentEnd` is an identifier character. */
  lemma {:induction false} IdentEndIsRun(src: string, i: nat)
    requires i <= |src|
    ensures forall k | i <= k < IdentEnd(src, i) :: IsAlphanum(src[k])
    decreases |src| - i
  {
    if i < |src| && IsAlphanum(src[i]) {
      IdentEndIsRun(src, i + 1);
    }
  }

  /** The first offset at or after `i` holding `quote` or a newline, or the end. */
  function StringEnd(src: string, i: nat, quote: char): (r: nat)
    requires i <= |src|
    ensures i <= r <= |src|
    ensures r == |src| || src[r] == quote || src[r] == '\n'
    decreases |src| - i
  {
    if i == |src| || src[i] == quote || src[i] == '\n' then i else StringEnd(src, i + 1, quote)
  }

  /** `StringEnd` stops at the first quote or newline: there is neither before it. */
  lemma {:induction false} StringEndIsFirstStop(src: string, i: nat, quote: char)
    requires i <= |src|
    ensures forall k | i <= k < StringEnd(src, i, quote) :: src[k] != quote && src[k] != '\n'
    decreases |src| - i
  {
    if i < |src| && src[i] != quote && src[i] != '\n' {
      StringEndIsFirstStop(src, i + 1, quote);
    }
  }

  /** A token whose text is the source slice from `start` to `current`. */
  function Span(src: string, kind: TokenKind, start: nat, current: nat, line: int): (Token, LexState)
    requires start <= current <= |src|
  {
    (Token(kind, src[start..current], line), LexState(start, current, line))
  }

  function Fail(message: string, start: nat, current: nat, line: int): (Token, LexState) {
    (Token(Error, message, line), LexState(start, current, line))
  }

  /**
   * What `scan_token` returns once `skip_whitespace` has stopped at offset `s`, on line `line`.
   * The ensures clauses are the scanner's guarantees: the cursor never moves backwards and
   * never passes the end, every token but `Eof` consumes at least one character, `Eof`
   * comes exactly at the end, and only a `Newline` token moves the line counter (by one,
   * before the token is made).
   */
  function ScanFrom(src: string, s: nat, line: int): (r: (Token, LexState))
    requires s <= |src|
    ensures s == r.1.start <= r.1.current <= |src|
    ensures r.0.kind == Eof <==> s == |src|
    ensures r.0.kind == Eof ==> r.1.current == s
    ensures r.0.kind != Eof ==> s < r.1.current
    ensures r.1.line == (if r.0.kind == Newline then line + 1 else line)
    ensures r.0.line == r.1.line
  {
    if s == |src| then Span(src, Eof, s, s, line)
    else
      var c := src[s];
      if IsAlphanum(c) then Span(src, Identifier, s, IdentEnd(src, s + 1), line)
      else if c == '{' then Span(src, LeftBrace, s, s + 1, line)
      else if c == '}' then Span(src, RightBrace, s, s + 1, line)
      else if c == '=' then Span(src, Equal, s, s + 1, line)
      else if c == '<' then
        if CharAt(src, s + 1) != '-' then Fail(UnexpectedCharacter, s, s + 1, line)
        else if CharAt(src, s + 2) != '>' then Fail(UnexpectedCharacter, s, s + 2, line)
        else Span(src, DoubleArrow, s, s + 3, line)
      else if c == '-' then
        if CharAt(src, s + 1) == '>' then Span(src, Arrow, s, s + 2, line)
        else Fail(UnexpectedCharacter, s, s + 1, line)
      else if c == '"' || c == '\'' then
        var e := StringEnd(src, s + 1, c);
        if e == |src| || src[e] == '\n' then Fail(UnterminatedString, s, e, line)
        else (Token(String, src[s + 1..e], line), LexState(s, e + 1, line))
      else if c == '\n' then Span(src, Newline, s, s + 1, line + 1)
      else Fail(UnexpectedCharacter, s, s + 1, line)
  }

  /** One call of `scan_token` from lexer state `st`: the token returned and the new state. */
  function Scan(src: string, st: LexState): (r: (Token, LexState))
    requires st.current <= |src|
    ensures st.current <= r.1.start <= r.1.current <= |src|
    ensures r.0.kind == Eof <==> r.1.current == |src| && r.1.start == r.1.current
    ensures r.0.kind != Eof ==> st.current < r.1.current
    ensures r.1.line == (if r.0.kind == Newline then st.line + 1 else st.line)
  {
    ScanFrom(src, SkipSpace(src, st.current), st.line)
  }

  // ---------------------------------------------------------------------------
  // Properties of the specification
  // ---------------------------------------------------------------------------

  /** Once the scanner has returned `Eof` it keeps returning `Eof` without moving. */
  lemma EofIsSticky(src: string, st: LexState)
    requires st.current <= |src|
    requires Scan(src, st).0.kind == Eof
    ensures Scan(src, Scan(src, st).1) == (Token(Eof, "", st.line), Scan(src, st).1)
  {
    var st' := Scan(src, st).1;
    assert SkipSpace(src, st'.current) == |src|;
    assert src[|src|..|src|] == "";
  }

  /** A newline is never skipped: at a newline the scanner returns `Newline` on the next line. */
  lemma NewlineIsAToken(src: string, st: LexState)
    requires st.current < |src| && src[st.current] == '\n'
    ensures Scan(src, st) == (Token(Newline, "\n", st.line + 1), LexState(st.current, st.current + 1, st.line + 1))
  {
    assert SkipSpace(src, st.current) == st.current;
    assert src[st.current..st.current + 1] == "\n";
  }

  /** Blanks before a token are skipped and do not change the token or the line. */
  lemma BlanksAreSkipped(src: string, st: LexState)
    requires st.current < |src| && IsBlank(src[st.current])
    ensures Scan(src, st) == Scan(src, st.(current := st.current + 1))
  {
  }

  /** A slash-slash comment is consumed up to, and not including, the newline that ends it. */
  lemma {:induction false} LineCommentStopsBeforeNewline(src: string, i: nat)
    requires i + 1 < |src| && src[i] == '/' && src[i + 1] == '/'
    ensures SkipSpace(src, i) == LineEnd(src, i)
    ensures SkipSpace(src, i) == |src| || src[SkipSpace(src, i)] == '\n'
  {
    var e := LineEnd(src, i);
    assert SkipSpace(src, i) == SkipSpace(src, e);
    if e < |src| {
      assert src[e] == '\n';
    }
  }

  /** An unterminated slash-star comment silently runs to the end of the source. */
  lemma {:induction false} UnterminatedBlockCommentRunsToEnd(src: string, i: nat)
    requires i + 1 < |src| && src[i] == '/' && src[i + 1] == '*'
    requires forall k | i + 2 <= k < |src| :: !(src[k] == '*' && CharAt(src, k + 1) == '/')
    ensures SkipSpace(src, i) == |src|
  {
    var e := BlockEnd(src, i + 2);
    assert e == |src|;
  }

  /** A terminated slash-star comment is consumed through its first closing star-slash. */
  lemma {:induction false} BlockCommentEndsAfterClose(src: string, i: nat, k: nat)
    requires i + 1 < |src| && src[i] == '/' && src[i + 1] == '*'
    requires i + 2 <= k && k + 1 < |src| && src[k] == '*' && src[k + 1] == '/'
    requires forall j | i + 2 <= j < k :: !(src[j] == '*' && src[j + 1] == '/')
    ensures SkipSpace(src, i) == SkipSpace(src, k + 2)
  {
    BlockEndIsFirstClose(src, i + 2);
    var e := BlockEnd(src, i + 2);
    assert e == k;
  }

  /** An identifier is a maximal, non-empty run of `[A-Za-z0-9_]`; it may start with a digit. */
  lemma IdentifierIsMaximalRun(src: string, st: LexState)
    requires st.current <= |src|
    requires Scan(src, st).0.kind == Identifier
    ensures var (t, st') := Scan(src, st);
      && t.lexeme == src[st'.start..st'.current] && |t.lexeme| > 0
      && (forall k | 0 <= k < |t.lexeme| :: IsAlphanum(t.lexeme[k]))
      && (st'.current == |src| || !IsAlphanum(src[st'.current]))
  {
    var s := SkipSpace(src, st.current);
    IdentEndIsRun(src, s + 1);
  }

  /** Whatever starts with an identifier character scans as an identifier (digits included). */
  lemma DigitsScanAsIdentifier(src: string, st: LexState)
    requires st.current < |src| && '0' <= src[st.current] <= '9'
    ensures Scan(src, st).0.kind == Identifier
  {
  }

  /**
   * A string closes only on the quote character that opened it; the token's text is what
   * lies strictly between the two quotes and holds neither that quote nor a newline.
   */
  lemma StringSpanExcludesQuotes(src: string, st: LexState)
    requires st.current <= |src|
    requires Scan(src, st).0.kind == String
    ensures var (t, st') := Scan(src, st);
      && st'.start + 2 <= st'.current
      && (src[st'.start] == '"' || src[st'.start] == '\'')
      && src[st'.current - 1] == src[st'.start]
      && t.lexeme == src[st'.start + 1..st'.current - 1]
      && (forall k | 0 <= k < |t.lexeme| :: t.lexeme[k] != src[st'.start] && t.lexeme[k] != '\n')
  {
    var s := SkipSpace(src, st.current);
    StringEndIsFirstStop(src, s + 1, src[s]);
  }

  /**
   * A newline or the end of the source before the closing quote gives the error
   * "Unterminated string."; the newline itself is not consumed, so the next token is `Newline`.
   */
  lemma UnterminatedStringLeavesNewline(src: string, s: nat, line: int)
    requires s < |src| && (src[s] == '"' || src[s] == '\'')
    requires || (forall k | s < k < |src| :: src[k] != src[s])
             || (exists j | s < j < |src| :: src[j] == '\n' && forall k | s < k < j :: src[k] != src[s])
    ensures ScanFrom(src, s, line).0 == Token(Error, UnterminatedString, line)
    ensures var st' := ScanFrom(src, s, line).1;
      st'.current == |src| || (src[st'.current] == '\n' && Scan(src, st').0.kind == Newline)
  {
    StringEndIsFirstStop(src, s + 1, src[s]);
    var e := StringEnd(src, s + 1, src[s]);
    assert e == |src| || src[e] == '\n';
    assert ScanFrom(src, s, line) == Fail(UnterminatedString, s, e, line);
  }

  /** Once blanks and comments are skipped, `->` scans as `Arrow`. */
  lemma ArrowScans(src: string, s: nat, line: int)
    requires s + 1 < |src| && src[s] == '-' && src[s + 1] == '>'
    ensures ScanFrom(src, s, line) == (Token(Arrow, "->", line), LexState(s, s + 2, line))
  {
    assert ScanFrom(src, s, line) == Span(src, Arrow, s, s + 2, line);
    assert src[s..s + 2] == "->";
  }

  /** Once blanks and comments are skipped, `<->` scans as `DoubleArrow`. */
  lemma DoubleArrowScans(src: string, s: nat, line: int)
    requires s + 2 < |src| && src[s] == '<' && src[s + 1] == '-' && src[s + 2] == '>'
    ensures ScanFrom(src, s, line) == (Token(DoubleArrow, "<->", line), LexState(s, s + 3, line))
  {
    assert ScanFrom(src, s, line) == Span(src, DoubleArrow, s, s + 3, line);
    assert src[s..s + 3] == "<->";
  }

  /**
   * A `-` without `>`, a `<` without `->` and any byte that starts no token give the error
   * "Unexpected character.".
   */
  lemma UnexpectedCharacters(src: string, st: LexState)
    requires st.current <= |src|
    ensures var s := SkipSpace(src, st.current);
      s < |src| && src[s] == '-' && CharAt(src, s + 1) != '>' ==>
        Scan(src, st).0 == Token(Error, UnexpectedCharacter, st.line)
    ensures var s := SkipSpace(src, st.current);
      s < |src| && src[s] == '<' && (CharAt(src, s + 1) != '-' || CharAt(src, s + 2) != '>') ==>
        Scan(src, st).0 == Token(Error, UnexpectedCharacter, st.line)
    ensures var s := SkipSpace(src, st.current);
      s < |src| && !IsAlphanum(src[s]) && !(src[s] in "{}=<-\"'\n") ==>
        Scan(src, st).0 == Token(Error, UnexpectedCharacter, st.line)
  {
  }

  /** Every token but `String` and `Error` is exactly the source slice it was scanned from. */
  lemma TokenIsSourceSlice(src: string, st: LexState)
    requires st.current <= |src|
    requires Scan(src, st).0.kind != String && Scan(src, st).0.kind != Error
    ensures Scan(src, st).0.lexeme == src[Scan(src, st).1.start..Scan(src, st).1.current]
  {
  }

  // ---------------------------------------------------------------------------
  // The lexer object (lexer_t and the functions of src/lexer.c)
  // ---------------------------------------------------------------------------

  class Lexer {
    const source: string
    var start: nat
    var current: nat
    var line: int

    ghost predicate Valid()
      reads this
    {
      CString(source) && start <= current <= |source|
    }

    function State(): LexState
      reads this
    {
      LexState(start, current, line)
    }

    /** `init_lexer`: both cursors at the first character, on line 1. */
    constructor (source: string)
      requires CString(source)
      ensures Valid() && this.source == source
      ensures State() == LexState(0, 0, 1)
    {
      this.source := source;
      start := 0;
      current := 0;
      line := 1;
    }

    method IsAtEnd() returns (b: bool)
      requires Valid()
      ensures b <==> current == |source|
    {
      b := CharAt(source, current) == '\0';
    }

    /** Consumes and returns the current character; never called at the end. */
    method Advance() returns (c: char)
      requires Valid() && current < |source|
      modifies this`current
      ensures Valid()
      ensures current == old(current) + 1 && c == source[old(current)]
    {
      current := current + 1;
      c := source[current - 1];
    }

    method Peek() returns (c: char)
      requires Valid()
      ensures c == CharAt(source, current)
      ensures c == '\0' <==> current == |source|
    {
      c := CharAt(source, current);
    }

    method PeekNext() returns (c: char)
      requires Valid()
      ensures c == CharAt(source, current + 1)
    {
      var atEnd := IsAtEnd();
      if atEnd {
        return '\0';
      }
      c := CharAt(source, current + 1);
    }

    /** Consumes the current character only when it is `expected`. */
    method Match(expected: char) returns (matched: bool)
      requires Valid()
      modifies this`current
      ensures Valid()
      ensures matched <==> old(current) < |source| && source[old(current)] == expected
      ensures current == if matched then old(current) + 1 else old(current)
    {
      var atEnd := IsAtEnd();
      if atEnd {
        return false;
      }
      if source[current] != expected {
        return false;
      }
      current := current + 1;
      matched := true;
    }

    /** A token spanning `start` to `current`; a string's span drops its two quotes. */
    method MakeToken(kind: TokenKind) returns (t: Token)
      requires Valid()
      requires kind == String ==> start + 2 <= current
      ensures t.kind == kind && t.line == line
      ensures t.lexeme == if kind == String then source[start + 1..current - 1] else source[start..current]
    {
      if kind == String {
        t := Token(kind, source[start + 1..current - 1], line);
      } else {
        t := Token(kind, source[start..current], line);
      }
    }

    method ErrorToken(message: string) returns (t: Token)
      ensures t == Token(Error, message, line)
    {
      t := Token(Error, message, line);
    }

    /** The slash-slash case of `skip_whitespace`: consumes up to the newline or the end. */
    method SkipLineComment()
      requires Valid()
      modifies this`current
      ensures Valid()
      ensures current == LineEnd(source, old(current))
    {
      var atEnd := IsAtEnd();
      var c := Peek();
      while c != '\n' && !atEnd
        invariant Valid() && old(current) <= current
        invariant LineEnd(source, current) == LineEnd(source, old(current))
        invariant c == CharAt(source, current) && (atEnd <==> current == |source|)
        decreases |source| - current
      {
        c := Advance();
        atEnd := IsAtEnd();
        c := Peek();
      }
    }

    /**
     * The slash-star case of `skip_whitespace`, called on the opening slash: consumes the
     * opening pair, the comment and the closing pair, or everything up to the end when the
     * comment is never closed.
     */
    method SkipBlockComment()
      requires Valid() && current + 1 < |source|
      modifies this`current
      ensures Valid()
      ensures var e := BlockEnd(source, old(current) + 2);
        current == if e < |source| then e + 2 else e
    {
      var c := Advance();
      c := Advance();
      var atEnd := IsAtEnd();
      c := Peek();
      var n := PeekNext();
      while (c != '*' || n != '/') && !atEnd
        invariant Valid() && old(current) + 2 <= current
        invariant BlockEnd(source, current) == BlockEnd(source, old(current) + 2)
        invariant c == CharAt(source, current) && n == CharAt(source, current + 1)
        invariant atEnd <==> current == |source|
        decreases |source| - current
      {
        c := Advance();
        atEnd := IsAtEnd();
        c := Peek();
        n := PeekNext();
      }
      if !atEnd {
        c := Advance();
        c := Advance();
      }
    }

    /** `skip_whitespace`: stops at the first character that is not skipped, newline included. */
    method SkipWhitespace()
      requires Valid()
      modifies this`current
      ensures Valid()
      ensures current == SkipSpace(source, old(current))
    {
      while true
        invariant Valid()
        invariant SkipSpace(source, current) == SkipSpace(source, old(current))
        decreases |source| - current
      {
        var c := Peek();
        if IsBlank(c) {
          c := Advance();
        } else if c == '/' {
          var n := PeekNext();
          if n == '/' {
            // A comment goes until the end of the line.
            SkipLineComment();
          } else if n == '*' {
            SkipBlockComment();
          } else {
            return;
          }
        } else {
          return;
        }
      }
    }

    /** Consumes the rest of an identifier whose first character was just consumed. */
    method ScanIdentifier() returns (t: Token)
      requires Valid() && start < current
      modifies this`current
      ensures Valid()
      ensures current == IdentEnd(source, old(current))
      ensures t == Token(Identifier, source[start..current], line)
    {
      ghost var from := current;
      var c := Peek();
      while IsAlphanum(c)
        invariant Valid() && from <= current
        invariant IdentEnd(source, current) == IdentEnd(source, from)
        invariant c == CharAt(source, current)
        decreases |source| - current
      {
        c := Advance();
        c := Peek();
      }
      t := MakeToken(Identifier);
    }

    /** Consumes a string whose opening `quote` was just consumed, through the closing quote. */
    method ScanString(quote: char) returns (t: Token)
      requires Valid() && start < current && quote != '\n' && quote != '\0'
      modifies this`current
      ensures Valid()
      ensures var e := StringEnd(source, old(current), quote);
        if e == |source| || source[e] == '\n' then
          current == e && t == Token(Error, UnterminatedString, line)
        else
          current == e + 1 && t == Token(String, source[start + 1..e], line)
    {
      ghost var from := current;
      var c := Peek();
      var atEnd := IsAtEnd();
      while c != quote && !atEnd
        invariant Valid() && from <= current
        invariant StringEnd(source, current, quote) == StringEnd(source, from, quote)
        invariant c == CharAt(source, current) && (atEnd <==> current == |source|)
        decreases |source| - current
      {
        if c == '\n' {
          t := ErrorToken(UnterminatedString);
          return;
        }
        c := Advance();
        c := Peek();
        atEnd := IsAtEnd();
      }
      if atEnd {
        t := ErrorToken(UnterminatedString);
        return;
      }
      // Advance past the closing quote.
      c := Advance();
      t := MakeToken(String);
    }

    /**
     * The `switch` of `scan_token`: `c`, just consumed at `start`, is not an identifier
     * character; the token it begins is scanned as `ScanFrom` says.
     */
    method ScanSymbol(c: char) returns (t: Token)
      requires Valid() && current == start + 1 && source[start] == c && !IsAlphanum(c)
      modifies this`current, this`line
      ensures Valid()
      ensures (t, State()) == ScanFrom(source, start, old(line))
    {
      if c == '{' {
        t := MakeToken(LeftBrace);
      } else if c == '}' {
        t := MakeToken(RightBrace);
      } else if c == '=' {
        t := MakeToken(Equal);
      } else if c == '<' {
        var dash := Match('-');
        var gt := false;
        if dash {
          gt := Match('>');
        }
        if dash && gt {
          t := MakeToken(DoubleArrow);
        } else {
          t := ErrorToken(UnexpectedCharacter);
        }
      } else if c == '-' {
        var gt := Match('>');
        if gt {
          t := MakeToken(Arrow);
        } else {
          t := ErrorToken(UnexpectedCharacter);
        }
      } else if c == '"' {
        t := ScanString('"');
      } else if c == '\'' {
        t := ScanString('\'');
      } else if c == '\n' {
        line := line + 1;
        t := MakeToken(Newline);
      } else {
        t := ErrorToken(UnexpectedCharacter);
      }
    }

    /** `scan_token`: skips blanks and comments and returns the next token. */
    method ScanToken() returns (t: Token)
      requires Valid()
      modifies this`start, this`current, this`line
      ensures Valid()
      ensures (t, State()) == Scan(source, old(State()))
    {
      SkipWhitespace();
      start := current;
      var atEnd := IsAtEnd();
      if atEnd {
        t := MakeToken(Eof);
        return;
      }
      var c := Advance();
      if IsAlphanum(c) {
        t := ScanIdentifier();
        return;
      }
      t := ScanSymbol(c);
    }
  }
}
