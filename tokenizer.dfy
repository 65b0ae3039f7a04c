/**
 * The tokenizer context as the C code keeps it: a cursor (offset, line,
 * column) over an immutable byte buffer, the frame of the token being
 * scanned, the kind of the previous token, and the error slot. Every scanner
 * is a method that moves the cursor step by step and is proved to end where
 * the corresponding function of `Scanner` says, with the error that function
 * latches; `NextToken` is proved to be one step of `Controller.Next`.
 */
module Tokenizer {
  import opened Tokens
  import opened Scanner
  import opened Controller

  /** The error slot after a scan that latched `l`: a latched error replaces
      whatever was there, otherwise the slot keeps `e`. */
  function Latch(e: Option<TokenizerError>, l: Option<TokenizerError>): Option<TokenizerError>
  {
    if l.Some? then l else e
  }

  class Tokenizer {
    /** The buffer; bytes past its end read as NUL. */
    const content: seq<Byte>
    var offset: nat
    var line: int
    var column: int
    /** The start of the token being scanned. */
    var frame: Frame
    /** The kind of the last token returned (the context's `type`). */
    var prev: TokenType
    /** The error slot (a process-wide global in the C code). */
    var error: Option<TokenizerError>

    /** Line and column are those of the offset, and the frame is a position
        of the buffer. */
    predicate Valid()
      reads this
    {
      && PositionAt(content, offset) == Frame(offset, line, column)
      && frame.offset >= 0 && frame == PositionAt(content, frame.offset)
    }

    /** The part of the state `Controller.Next` reads and writes. */
    function Snapshot(): State
      reads this
    {
      State(offset, frame, prev, error)
    }

    /** A context at the start of `src`: offset 0, line 1, column 1, no
        error. The previous kind, which the C code leaves unset, is given. */
    constructor(src: seq<Byte>, initialPrev: TokenType)
      ensures Valid() && content == src
      ensures offset == 0 && line == 1 && column == 1
      ensures prev == initialPrev && error.None?
    {
      content := src;
      offset := 0;
      line := 1;
      column := 1;
      frame := Frame(0, 1, 1);
      prev := initialPrev;
      error := None;
    }

    // Cursor

    /** The byte n positions ahead, NUL at and past the end of the buffer. */
    method PeekN(n: nat) returns (c: Byte)
      ensures c == PeekAt(content, offset + n)
    {
      if offset + n >= |content| {
        return '\0';
      }
      return content[offset + n];
    }

    method Peek() returns (c: Byte)
      ensures c == PeekAt(content, offset)
    {
      c := PeekN(0);
    }

    /** Consumes one byte. `Valid` keeps line and column those of the new
        offset: a line feed starts a new line at column 1 and any other byte
        moves one column right (`Scanner.PositionAdvances`). */
    method Next() returns (c: Byte)
      requires Valid()
      modifies this`offset, this`line, this`column
      ensures Valid()
      ensures c == PeekAt(content, old(offset)) && offset == old(offset) + 1
    {
      c := Peek();
      if c == '\n' {
        line := line + 1;
        column := 1;
      } else {
        column := column + 1;
      }
      offset := offset + 1;
    }

    /** Consumes two bytes and gives the second. */
    method Next2() returns (c: Byte)
      requires Valid()
      modifies this`offset, this`line, this`column
      ensures Valid()
      ensures c == PeekAt(content, old(offset) + 1) && offset == old(offset) + 2
    {
      c := Next();
      c := Next();
    }

    // Trivia

    /** Skips a line comment and its terminator, which is consumed even at
        end of input. */
    method SkipSingleComment()
      requires Valid() && OpensLineComment(content, offset)
      modifies this`offset, this`line, this`column
      ensures Valid()
      ensures offset == LineCommentEnd(content, old(offset) + 2)
    {
      ghost var start := offset + 2;
      var c := Next2();
      c := Peek();
      while c != '\r' && c != '\n' && c != '\0'
        invariant Valid() && start <= offset <= |content|
        invariant c == PeekAt(content, offset)
        invariant LineCommentEnd(content, offset) == LineCommentEnd(content, start)
        decreases |content| - offset
      {
        c := Next();
        c := Peek();
      }
      c := Next();
    }

    /** Skips a block comment; an unterminated one stops at the end of input
        and latches an error at the comment's opening. */
    method SkipMultiComment()
      requires Valid() && OpensBlockComment(content, offset)
      modifies this`offset, this`line, this`column, this`error
      ensures Valid()
      ensures var r := BlockCommentRest(content, old(offset) + 2);
        && offset == r.end
        && error == if r.Closed? then old(error) else Some(TokenizerError(UnterminatedComment, PositionAt(content, old(offset))))
    {
      var start := Frame(offset, line, column);
      var c := Next2();
      var c0 := PeekN(0);
      var c1 := PeekN(1);
      while c0 != '*' || c1 != '/'
        invariant Valid() && old(offset) + 2 <= offset <= |content|
        invariant c0 == PeekAt(content, offset) && c1 == PeekAt(content, offset + 1)
        invariant BlockCommentRest(content, offset) == BlockCommentRest(content, old(offset) + 2)
        invariant error == old(error)
        decreases |content| - offset
      {
        if offset >= |content| {
          error := Some(TokenizerError(UnterminatedComment, start));
          return;
        }
        c := Next();
        c0 := PeekN(0);
        c1 := PeekN(1);
      }
      c := Next2();
    }

    /** Skips white space and comments. The error slot gets the opening of
        the last unterminated block comment met, if any. */
    method Skip()
      requires Valid()
      modifies this`offset, this`line, this`column, this`error
      ensures Valid()
      ensures var sk := SkipFrom(content, old(offset), None);
        offset == sk.end && error == AfterSkip(content, sk, old(error))
    {
      ghost var latched: Option<nat> := None;
      while true
        invariant Valid() && old(offset) <= offset
        invariant offset <= |content| + 1 || offset == old(offset)
        invariant SkipFrom(content, offset, latched) == SkipFrom(content, old(offset), None)
        invariant error == AfterSkip(content, Skipped(offset, latched), old(error))
        decreases |content| + 2 - offset
      {
        var c0 := PeekN(0);
        var c1 := PeekN(1);
        if c0 == '/' && c1 == '*' {
          ghost var k := offset;
          SkipMultiComment();
          if BlockCommentRest(content, k + 2).Unterminated? {
            latched := Some(k);
          }
        } else if c0 == '/' && c1 == '/' {
          SkipSingleComment();
        } else if c0 == ' ' || c0 == '\t' || c0 == '\n' || c0 == '\r' {
          c0 := Next();
        } else {
          break;
        }
      }
    }

    // Identifiers

    /** Scans an identifier or keyword from the frame. */
    method TokenizeIdentifier() returns (kind: TokenType)
      requires Valid() && offset == frame.offset < |content|
      modifies this`offset, this`line, this`column
      ensures Valid()
      ensures var r := IdentifierScan(content, old(offset)); kind == r.kind && offset == r.end
    {
      var c := Next();
      SkipIdentifierBytes();
      kind := KeywordKind(CString(content[frame.offset..offset]));
    }

    /** Advances over the run of identifier bytes at the cursor. */
    method SkipIdentifierBytes()
      requires Valid() && offset <= |content|
      modifies this`offset, this`line, this`column
      ensures Valid() && offset == IdentifierEnd(content, old(offset))
    {
      var c := Peek();
      while IsIdentifierByte(c)
        invariant Valid() && old(offset) <= offset <= |content|
        invariant c == PeekAt(content, offset)
        invariant IdentifierEnd(content, offset) == IdentifierEnd(content, old(offset))
        decreases |content| - offset
      {
        c := Next();
        c := Peek();
      }
    }

    // Numbers

    /** Scans a run of digits and `_` separators. A leading `_`, a trailing
        `_`, or (when `req`) a run without a digit latches an error at the
        frame and gives false. */
    method TokenizeDecPart(req: bool) returns (ok: bool)
      requires Valid() && offset <= |content|
      modifies this`offset, this`line, this`column, this`error
      ensures Valid()
      ensures var p := DecPart(content, old(offset), req);
        && ok == p.PartOk? && offset == p.end
        && error == if ok then old(error) else Some(TokenizerError(p.message, frame))
    {
      var lastUnderscore := false;
      var hasNumber := false;
      var c := Peek();
      if c == '_' {
        error := Some(TokenizerError(UnderscoreFirstOrLast, frame));
        return false;
      }
      while true
        invariant Valid() && old(offset) <= offset <= |content|
        invariant DecRun(content, offset, hasNumber, lastUnderscore) == DecRun(content, old(offset), false, false)
        invariant error == old(error)
        decreases |content| - offset
      {
        c := Peek();
        if IsDigit(c) {
          hasNumber := true;
          lastUnderscore := false;
          c := Next();
        } else if c == '_' {
          lastUnderscore := true;
          c := Next();
        } else {
          break;
        }
      }
      if !hasNumber && req {
        error := Some(TokenizerError(TerminatesWithDot, frame));
        return false;
      }
      if lastUnderscore {
        error := Some(TokenizerError(UnderscoreLast, frame));
        return false;
      }
      return true;
    }

    /** Rewinds to the frame and scans a floating literal: integer part,
        optional fraction, optional suffix. */
    method TokenizeFloatingPointNumber() returns (kind: TokenType)
      requires Valid() && frame.offset < |content|
      requires IsDigit(content[frame.offset]) || (content[frame.offset] == '.' && IsDigit(PeekAt(content, frame.offset + 1)))
      modifies this`offset, this`line, this`column, this`error
      ensures Valid()
      ensures var r := FloatScan(content, frame.offset);
        kind == r.kind && offset == r.end && error == Latch(old(error), r.latched)
    {
      offset := frame.offset;
      line := frame.line;
      column := frame.column;
      var ok := TokenizeDecPart(false);
      if !ok {
        return Error;
      }
      kind := TokenizeFraction();
    }

    /** After the integer part: an optional `.` and fraction, then the
        suffix. */
    method TokenizeFraction() returns (kind: TokenType)
      requires Valid() && frame.offset <= offset <= |content|
      modifies this`offset, this`line, this`column, this`error
      ensures Valid()
      ensures var r := FractionScan(content, frame.offset, old(offset));
        kind == r.kind && offset == r.end && error == Latch(old(error), r.latched)
    {
      var c := Peek();
      if c == '.' {
        c := Next();
        var ok := TokenizeDecPart(true);
        if !ok {
          return Error;
        }
      }
      kind := TokenizeFloatSuffix();
    }

    /** The suffix of a floating literal: `f`/`F` makes it a float, `d`/`D`
        or nothing a double. */
    method TokenizeFloatSuffix() returns (kind: TokenType)
      requires Valid()
      modifies this`offset, this`line, this`column
      ensures Valid()
      ensures var r := FloatSuffix(content, old(offset)); kind == r.kind && offset == r.end
    {
      var c := Peek();
      if c == 'f' || c == 'F' {
        c := Next();
        return FloatNumber;
      }
      if c == 'd' || c == 'D' {
        c := Next();
      }
      return DoubleNumber;
    }

    /** Scans a decimal literal from the frame; a `.` after the integer part
        hands over to the floating-point scanner. */
    method TokenizeDecNumber() returns (kind: TokenType)
      requires Valid() && offset == frame.offset < |content| && IsDigit(content[offset])
      modifies this`offset, this`line, this`column, this`error
      ensures Valid()
      ensures var r := DecNumberScan(content, old(offset));
        kind == r.kind && offset == r.end && error == Latch(old(error), r.latched)
    {
      var ok := TokenizeDecPart(true);
      if !ok {
        return Error;
      }
      var c := Peek();
      if c == '.' {
        kind := TokenizeFloatingPointNumber();
        return;
      }
      if c == 'f' || c == 'F' {
        c := Next();
        return FloatNumber;
      }
      if c == 'd' || c == 'D' {
        c := Next();
        return DoubleNumber;
      }
      if c == 'l' || c == 'L' {
        c := Next();
        return DecLongNumber;
      }
      return DecNumber;
    }

    /** Scans a number from the frame, or the `.` token. */
    method TokenizeNumber() returns (kind: TokenType)
      requires Valid() && offset == frame.offset < |content|
      requires IsDigit(content[offset]) || content[offset] == '.'
      modifies this`offset, this`line, this`column, this`error
      ensures Valid()
      ensures var r := NumberScan(content, old(offset));
        kind == r.kind && offset == r.end && error == Latch(old(error), r.latched)
    {
      var c0 := PeekN(0);
      if c0 == '.' {
        var c1 := PeekN(1);
        if IsDigit(c1) {
          kind := TokenizeFloatingPointNumber();
          return;
        }
        c0 := Next();
        return Dot;
      }
      kind := TokenizeDecNumber();
    }

    // Escapes, strings and characters

    /** Checks the escape whose backslash is at the cursor; `allowed` is the
        quote of the enclosing literal. A failure latches an error at the
        backslash. */
    method TokenizeEscape(allowed: Byte) returns (ok: bool)
      requires Valid() && offset < |content|
      modifies this`offset, this`line, this`column, this`error
      ensures Valid()
      ensures var r := EscapeScan(content, old(offset), allowed);
        && ok == r.EscapeOk? && offset == r.end
        && error == if ok then old(error) else Some(TokenizerError(r.message, PositionAt(content, old(offset))))
    {
      var start := Frame(offset, line, column);
      var c := Next();
      var current := Peek();
      if (current == '\'' || current == '"') && current != allowed {
      } else if current == '\'' || current == '"' || current == 'n' || current == 't' || current == 'r'
             || current == '0' || current == '\\' {
        c := Next();
        return true;
      } else if current == 'u' {
        c := Next();
        var i := 0;
        while i < 4
          invariant Valid() && 0 <= i <= 4 && offset == old(offset) + 2 + i
          invariant forall j :: old(offset) + 2 <= j < offset ==> IsHexDigit(PeekAt(content, j))
          invariant error == old(error)
        {
          c := Peek();
          if !IsHexDigit(c) {
            error := Some(TokenizerError(InvalidUnicode, start));
            return false;
          }
          c := Next();
          i := i + 1;
        }
        return true;
      }
      error := Some(TokenizerError(InvalidEscape, start));
      return false;
    }

    /** The string scanner as written: an invalid escape latches its error
        and scanning goes on. */
    method TokenizeString() returns (kind: TokenType)
      requires Valid() && offset == frame.offset < |content|
      modifies this`offset, this`line, this`column, this`error
      ensures Valid()
      ensures var r := StringScan(content, old(offset));
        kind == r.kind && offset == r.end && error == Latch(old(error), r.latched)
    {
      ghost var latched: Option<TokenizerError> := None;
      var c := Next();
      c := Peek();
      while c != '"'
        invariant Valid() && frame.offset < offset <= |content|
        invariant c == PeekAt(content, offset)
        invariant StringRest(content, frame.offset, offset, latched) == StringScan(content, frame.offset)
        invariant error == Latch(old(error), latched)
        decreases |content| - offset
      {
        if offset >= |content| {
          error := Some(TokenizerError(StringNotCompleted, frame));
          return Error;
        }
        if c == '\\' {
          var ok := TokenizeEscape('"');
          if !ok {
            latched := error;
          }
        } else {
          c := Next();
        }
        c := Peek();
      }
      c := Next();
      return StringLiteral;
    }

    /** The string scanner as evidently intended: it stops with `Error` at
        the first invalid escape. */
    method TokenizeCheckedString() returns (kind: TokenType)
      requires Valid() && offset == frame.offset < |content|
      modifies this`offset, this`line, this`column, this`error
      ensures Valid()
      ensures var r := CheckedStringScan(content, old(offset));
        kind == r.kind && offset == r.end && error == Latch(old(error), r.latched)
    {
      var c := Next();
      c := Peek();
      while c != '"'
        invariant Valid() && frame.offset < offset <= |content|
        invariant c == PeekAt(content, offset)
        invariant CheckedStringRest(content, frame.offset, offset) == CheckedStringScan(content, frame.offset)
        invariant error == old(error)
        decreases |content| - offset
      {
        if offset >= |content| {
          error := Some(TokenizerError(StringNotCompleted, frame));
          return Error;
        }
        if c == '\\' {
          var ok := TokenizeEscape('"');
          if !ok {
            return Error;
          }
        } else {
          c := Next();
        }
        c := Peek();
      }
      c := Next();
      return StringLiteral;
    }

    /** Scans a character literal: one byte or one escape, then the closing
        quote, which is consumed whatever it is. */
    method TokenizeChar() returns (kind: TokenType)
      requires Valid() && offset == frame.offset < |content|
      modifies this`offset, this`line, this`column, this`error
      ensures Valid()
      ensures var r := CharScan(content, old(offset));
        kind == r.kind && offset == r.end && error == Latch(old(error), r.latched)
    {
      var c := Next();
      c := Peek();
      if c == '\\' {
        var ok := TokenizeEscape('\'');
        if !ok {
          return Error;
        }
      } else {
        c := Next();
      }
      kind := TokenizeCharClose();
    }

    /** The closing quote of a character literal: the byte is consumed
        whatever it is, and anything but a quote latches an error at the
        frame. */
    method TokenizeCharClose() returns (kind: TokenType)
      requires Valid() && frame.offset < offset
      modifies this`offset, this`line, this`column, this`error
      ensures Valid()
      ensures var r := CharClose(content, frame.offset, old(offset));
        kind == r.kind && offset == r.end && error == Latch(old(error), r.latched)
    {
      var c := Next();
      if c != '\'' {
        error := Some(TokenizerError(SymbolNotCompleted, frame));
        return Error;
      }
      return CharLiteral;
    }

    // Operators

    /** Scans an operator by longest match on the next three bytes; `-`
        alone is unary or binary by the previous kind. */
    method TokenizeOperator() returns (kind: TokenType)
      requires Valid() && offset == frame.offset < |content| && content[offset] != '.'
      modifies this`offset, this`line, this`column, this`error
      ensures Valid()
      ensures var r := OperatorScan(content, old(offset), prev);
        kind == r.kind && offset == r.end && error == Latch(old(error), r.latched)
    {
      var first := Peek();
      var c1 := PeekN(1);
      var c2 := PeekN(2);
      var m := OperatorMatch(first, c1, c2, prev);
      OperatorScanByMatch(content, offset, prev);
      var c := Next();
      if m.None? {
        error := Some(TokenizerError(UnknownOperator, frame));
        return Error;
      }
      NextRest(m.value.1 - 1);
      kind := m.value.0;
    }

    /** Consumes the second and third bytes of an operator, as far as it
        spans them. */
    method NextRest(n: nat)
      requires Valid() && n <= 2
      modifies this`offset, this`line, this`column
      ensures Valid() && offset == old(offset) + n
    {
      var c;
      if n >= 1 {
        c := Next();
      }
      if n == 2 {
        c := Next();
      }
    }

    // Controller

    /** Scans the token at the frame with the scanner its first byte
        selects. */
    method TokenizeToken() returns (kind: TokenType)
      requires Valid() && offset == frame.offset < |content|
      modifies this`offset, this`line, this`column, this`error
      ensures Valid()
      ensures var r := Dispatch(content, old(offset), prev);
        kind == r.kind && offset == r.end && error == Latch(old(error), r.latched)
    {
      var first := Peek();
      if IsIdentifierStart(first) {
        kind := TokenizeIdentifier();
      } else if IsDigit(first) || first == '.' {
        kind := TokenizeNumber();
      } else if first == '"' {
        kind := TokenizeCheckedString();
      } else if first == '\'' {
        kind := TokenizeChar();
      } else {
        kind := TokenizeOperator();
      }
    }

    /** `tokenizer_next`: skips trivia, then returns nothing at end of input
        or with an error latched, and otherwise scans one token from the
        frame. The new state and the token are those of `Controller.Next`. */
    method NextToken() returns (token: Option<Token>)
      requires Valid()
      modifies this
      ensures Valid()
      ensures (token, Snapshot()) == Controller.Next(content, old(Snapshot()))
    {
      ghost var s := Snapshot();
      Skip();
      if offset >= |content| || error.Some? {
        NextStops(content, s);
        return None;
      }
      NextScans(content, s);
      frame := Frame(offset, line, column);
      token := ScanToken();
    }

    /** The second half of `tokenizer_next`: scans the token at the frame,
        records its kind as the previous kind and builds it; a failed scan
        returns nothing and leaves its error latched. */
    method ScanToken() returns (token: Option<Token>)
      requires Valid() && offset == frame.offset < |content| && error.None?
      modifies this`offset, this`line, this`column, this`error, this`prev
      ensures Valid()
      ensures (token, Snapshot()) == Emit(content, old(offset), old(prev), Dispatch(content, old(offset), old(prev)))
    {
      var kind := TokenizeToken();
      token := EmitToken(Dispatch(content, frame.offset, prev), kind);
    }

    /** Builds the token from a finished scan r of the token at the frame,
        and records its kind as the previous kind; a failed scan gives no
        token. */
    method EmitToken(ghost r: Scan, kind: TokenType) returns (token: Option<Token>)
      requires Valid() && Sound(content, frame.offset, r)
      requires kind == r.kind && offset == r.end && error == r.latched
      modifies this`prev
      ensures (token, Snapshot()) == Emit(content, frame.offset, old(prev), r)
    {
      if kind == Error {
        return None;
      }
      prev := kind;
      token := Some(Token(kind, CString(content[frame.offset..offset]), frame.offset, offset - frame.offset,
                          frame.line, frame.column));
    }
  }
}
