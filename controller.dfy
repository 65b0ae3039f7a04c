/**
 * The pull-based controller `tokenizer_next` as a function of the source and
 * the tokenizer state: skip trivia, stop at end of input or after an error,
 * otherwise dispatch on the first byte and build the token.
 */
module Controller {
  import opened Tokens
  import opened Scanner

  /** The state `tokenizer_next` reads and writes. Line and column are not
      kept: they are `PositionAt(src, offset)`. `prev` is the kind of the last
      token, and `error` the latched error slot. */
  datatype State = State(offset: nat, frame: Frame, prev: TokenType, error: Option<TokenizerError>)

  /** The scanner chosen by the first byte of the token; strings use the
      checked scanner (see `Scanner.CheckedStringRest`). */
  function Dispatch(src: seq<Byte>, f: nat, prev: TokenType): (r: Scan)
    requires f < |src|
    ensures Sound(src, f, r)
  {
    var first := src[f];
    if IsIdentifierStart(first) then IdentifierScan(src, f)
    else if IsDigit(first) || first == '.' then NumberScan(src, f)
    else if first == '"' then CheckedStringScan(src, f)
    else if first == '\'' then CharScan(src, f)
    else OperatorScan(src, f, prev)
  }

  /** The dispatcher as `tokenizer_next` is written: a string goes to the
      scanner as written (`Scanner.StringRest`), which may return a literal
      with an invalid-escape error latched. */
  function DispatchAsWritten(src: seq<Byte>, f: nat, prev: TokenType): (r: Scan)
    requires f < |src|
    ensures Ends(src, f, r)
    ensures src[f] != '"' ==> r == Dispatch(src, f, prev)
    ensures Dispatch(src, f, prev).kind != Error ==> r == Dispatch(src, f, prev)
  {
    if src[f] == '"' then
      StringScannersAgree(src, f, f + 1);
      StringScan(src, f)
    else Dispatch(src, f, prev)
  }

  /** The error slot after skipping: an unterminated block comment met by the
      skipper is reported at its opening. */
  function AfterSkip(src: seq<Byte>, sk: Skipped, error: Option<TokenizerError>): Option<TokenizerError>
  {
    match sk.unterminated
    case Some(c) => Some(TokenizerError(UnterminatedComment, PositionAt(src, c)))
    case None => error
  }

  /** One call of `tokenizer_next`: the token it returns, if any, and the new
      state. */
  function Next(src: seq<Byte>, s: State): (Option<Token>, State)
  {
    var sk := SkipFrom(src, s.offset, None);
    var error := AfterSkip(src, sk, s.error);
    if sk.end >= |src| || error.Some? then (None, State(sk.end, s.frame, s.prev, error))
    else Emit(src, sk.end, s.prev, Dispatch(src, sk.end, s.prev))
  }

  /** One call of `tokenizer_next` as written, with `DispatchAsWritten` in
      place of `Dispatch`; otherwise the same steps as `Next`. */
  function NextAsWritten(src: seq<Byte>, s: State): (Option<Token>, State)
  {
    var sk := SkipFrom(src, s.offset, None);
    var error := AfterSkip(src, sk, s.error);
    if sk.end >= |src| || error.Some? then (None, State(sk.end, s.frame, s.prev, error))
    else Emit(src, sk.end, s.prev, DispatchAsWritten(src, sk.end, s.prev))
  }

  /** The second half of `tokenizer_next`: from the scan of the token starting
      at f, the token returned (none on a failed scan) and the new state. The
      frame records the token's start either way, and the error slot holds
      whatever the scan latched. */
  function Emit(src: seq<Byte>, f: nat, prev: TokenType, r: Scan): (o: (Option<Token>, State))
    requires Ends(src, f, r)
    ensures o.1.offset == r.end && o.1.frame == PositionAt(src, f) && o.1.error == r.latched
    ensures o.0.None? <==> r.kind == Error
    ensures o.0.None? ==> o.1.prev == prev
    ensures o.0.Some? ==> var tok := o.0.value;
      && tok.kind == r.kind == o.1.prev
      && tok.offset == f && tok.length == r.end - f >= 1 && r.end <= |src|
      && tok.content == CString(src[f..r.end])
      && tok.line == PositionAt(src, f).line && tok.column == PositionAt(src, f).column
  {
    var frame := PositionAt(src, f);
    if r.kind == Error then (None, State(r.end, frame, prev, r.latched))
    else (Some(Token(r.kind, CString(src[f..r.end]), f, r.end - f, frame.line, frame.column)),
          State(r.end, frame, r.kind, r.latched))
  }

  /** A call that stops after skipping: at end of input or with an error
      latched, the state keeps the skipper's offset and error. */
  lemma NextStops(src: seq<Byte>, s: State)
    requires var sk := SkipFrom(src, s.offset, None); sk.end >= |src| || AfterSkip(src, sk, s.error).Some?
    ensures var sk := SkipFrom(src, s.offset, None);
      Next(src, s) == (None, State(sk.end, s.frame, s.prev, AfterSkip(src, sk, s.error)))
  {
  }

  /** A call that scans: the token and state are `Emit` of the dispatched
      scan at the skipper's offset. */
  lemma NextScans(src: seq<Byte>, s: State)
    requires var sk := SkipFrom(src, s.offset, None); sk.end < |src| && AfterSkip(src, sk, s.error).None?
    ensures var sk := SkipFrom(src, s.offset, None);
      Next(src, s) == Emit(src, sk.end, s.prev, Dispatch(src, sk.end, s.prev))
  {
  }

  /** End of stream is sticky: at or past the end of input a call returns
      nothing and changes nothing. */
  lemma NextAtEnd(src: seq<Byte>, s: State)
    requires s.offset >= |src|
    ensures Next(src, s) == (None, s)
  {
    SkipAtEnd(src, s.offset, None);
  }

  /** After an error no token is returned and the error slot stays set, but
      the skipper still runs first: the error is kept unless the skipper meets
      an unterminated block comment, whose error then replaces it. */
  lemma NextAfterError(src: seq<Byte>, s: State)
    requires s.error.Some?
    ensures Next(src, s).0.None?
    ensures var sk := SkipFrom(src, s.offset, None); var e := Next(src, s).1.error;
      && e.Some?
      && (sk.unterminated.None? ==> e == s.error)
      && (sk.unterminated.Some? ==> e == Some(TokenizerError(UnterminatedComment, PositionAt(src, sk.unterminated.value))))
  {
  }

  /** On the bytes `#`, space, `/`, `*` the first call latches "unknown
      operator" at the `#`; the second call still skips, meets the
      unterminated comment and replaces that error with its own. */
  lemma ErrorReplacedBySkip(prev: TokenType)
    ensures var src: seq<Byte> := ['#', ' ', '/', '*'];
      var s1 := State(1, Frame(0, 1, 1), prev, Some(TokenizerError(UnknownOperator, Frame(0, 1, 1))));
      && Next(src, State(0, Frame(0, 1, 1), prev, None)) == (None, s1)
      && Next(src, s1) == (None, State(4, Frame(0, 1, 1), prev, Some(TokenizerError(UnterminatedComment, Frame(2, 1, 3)))))
  {
    var src: seq<Byte> := ['#', ' ', '/', '*'];
    HashThenOpenComment(src, prev);
  }

  /** What the skipper and the position count give on `#`, space, `/`, `*`:
      nothing to skip at the `#`, which is no operator, and from the space on,
      an unterminated comment opened at offset 2, which is line 1, column 3. */
  lemma HashThenOpenComment(src: seq<Byte>, prev: TokenType)
    requires src == ['#', ' ', '/', '*']
    ensures Dispatch(src, 0, prev) == Scan(Error, 1, Some(TokenizerError(UnknownOperator, Frame(0, 1, 1))))
    ensures SkipFrom(src, 0, None) == Skipped(0, None)
    ensures SkipFrom(src, 1, None) == Skipped(4, Some(2))
    ensures PositionAt(src, 0) == Frame(0, 1, 1) && PositionAt(src, 2) == Frame(2, 1, 3)
  {
    assert !StartsTrivia(src, 0);
    assert BlockCommentRest(src, 4) == Unterminated(4);
    SkipAtEnd(src, 4, Some(2));
    assert SkipFrom(src, 2, None) == Skipped(4, Some(2));
    assert OperatorMatch('#', ' ', '/', prev).None?;
    OperatorScanByMatch(src, 0, prev);
  }

  /** `tokenizer_next` as evidently intended: a latched error ends the stream
      before anything is skipped. */
  function NextKeepingError(src: seq<Byte>, s: State): (Option<Token>, State)
  {
    if s.error.Some? then (None, s) else Next(src, s)
  }

  /** With the error tested first, a latched error is never overwritten: the
      call returns nothing and changes nothing, so every later call does the
      same. Without an error it is one step of `Next`. */
  lemma NextKeepingErrorSticky(src: seq<Byte>, s: State)
    ensures s.error.Some? ==> NextKeepingError(src, s) == (None, s)
    ensures s.error.None? ==> NextKeepingError(src, s) == Next(src, s)
    ensures var s' := NextKeepingError(src, s).1;
      s'.error.Some? ==> NextKeepingError(src, s') == (None, s') && s'.error == (if s.error.Some? then s.error else Next(src, s).1.error)
  {
  }

  /** A returned token starts where skipping stopped, at a byte of the input
      that is not trivia, and carries the line and column of that byte, which
      the new state keeps as its frame. Tokens are only returned while no error
      is latched. */
  lemma NextTokenStart(src: seq<Byte>, s: State)
    requires Next(src, s).0.Some?
    ensures var (t, s') := Next(src, s);
      && s.error.None?
      && t.value.offset == SkipFrom(src, s.offset, None).end
      && s.offset <= t.value.offset && !StartsTrivia(src, t.value.offset)
      && t.value.line == PositionAt(src, t.value.offset).line
      && t.value.column == PositionAt(src, t.value.offset).column
      && s'.frame == PositionAt(src, t.value.offset)
  {
    NextScans(src, s);
  }

  /** A returned token is not empty, lies inside the input, ends where the new
      state resumes, and its content is its slice of the input up to any NUL
      byte. */
  lemma NextTokenSpan(src: seq<Byte>, s: State)
    requires Next(src, s).0.Some?
    ensures var (t, s') := Next(src, s);
      && t.value.length >= 1 && t.value.offset + t.value.length == s'.offset <= |src|
      && t.value.content == CString(src[t.value.offset..s'.offset])
  {
    NextScans(src, s);
  }

  /** A returned token is never of kind ERROR; its kind becomes the previous
      kind and the error slot stays empty. */
  lemma NextTokenKind(src: seq<Byte>, s: State)
    requires Next(src, s).0.Some?
    ensures var (t, s') := Next(src, s);
      t.value.kind != Error && s'.prev == t.value.kind && s'.error.None?
  {
    NextScans(src, s);
  }

  /** Wherever the corrected controller returns a token, the controller as
      written returns the same token and state. */
  lemma NextAsWrittenAgrees(src: seq<Byte>, s: State)
    requires Next(src, s).0.Some?
    ensures NextAsWritten(src, s) == Next(src, s)
  {
    NextScans(src, s);
  }

  /** On the input `"\q"` the controller as written returns the whole literal
      as a string token while the invalid escape at line 1, column 2 stays
      latched, and the next call returns nothing. The corrected controller
      returns no token and latches the same error. */
  lemma InvalidEscapeAsWritten(prev: TokenType)
    ensures var src: seq<Byte> := ['"', '\\', 'q', '"'];
      var s0 := State(0, Frame(0, 1, 1), prev, None);
      var err := Some(TokenizerError(InvalidEscape, Frame(1, 1, 2)));
      var s1 := State(4, Frame(0, 1, 1), StringLiteral, err);
      && NextAsWritten(src, s0) == (Some(Token(StringLiteral, src, 0, 4, 1, 1)), s1)
      && NextAsWritten(src, s1) == (None, s1)
      && Next(src, s0) == (None, State(2, Frame(0, 1, 1), prev, err))
  {
    var src: seq<Byte> := ['"', '\\', 'q', '"'];
    assert !StartsTrivia(src, 0);
    assert SkipFrom(src, 0, None) == Skipped(0, None);
    StringScanReturnsLiteralWithError();
    CheckedStringScanRejectsInvalidEscape();
    CStringWithoutNul(src);
    SkipAtEnd(src, 4, None);
  }

  /** One call of the controller as written that meets no trivia and no
      latched error emits the scan of the token at its offset. */
  lemma NextAsWrittenEmits(src: seq<Byte>, s: State)
    requires s.offset < |src| && s.error.None?
    requires SkipFrom(src, s.offset, None) == Skipped(s.offset, None)
    ensures NextAsWritten(src, s) == Emit(src, s.offset, s.prev, DispatchAsWritten(src, s.offset, s.prev))
  {
  }

  /** The controller as written returns `"\u123"` whole as a string literal,
      with the short escape's error latched. */
  lemma ShortUnicodeAsWritten(src: seq<Byte>, prev: TokenType)
    requires src == ['"', '\\', 'u', '1', '2', '3', '"']
    ensures var err := Some(TokenizerError(InvalidUnicode, Frame(1, 1, 2)));
      NextAsWritten(src, State(0, Frame(0, 1, 1), prev, None))
         == (Some(Token(StringLiteral, src, 0, 7, 1, 1)), State(7, Frame(0, 1, 1), StringLiteral, err))
  {
    var err := Some(TokenizerError(InvalidUnicode, Frame(1, 1, 2)));
    ShortUnicodeStart(src);
    ShortUnicodeScansWhole();
    assert DispatchAsWritten(src, 0, prev) == Scan(StringLiteral, 7, err);
    NextAsWrittenEmits(src, State(0, Frame(0, 1, 1), prev, None));
  }

  /** `"\u123"` starts a token at its first byte, at line 1, column 1, and
      holds no NUL byte. */
  lemma ShortUnicodeStart(src: seq<Byte>)
    requires src == ['"', '\\', 'u', '1', '2', '3', '"']
    ensures SkipFrom(src, 0, None) == Skipped(0, None)
    ensures PositionAt(src, 0) == Frame(0, 1, 1)
    ensures CString(src[0..7]) == src
  {
    assert !StartsTrivia(src, 0);
    CStringWithoutNul(src);
  }
}
