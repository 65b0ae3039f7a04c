/**
 * The scanning rules of the tokenizer as functions of the source bytes and a
 * byte offset. Every rule here is one C routine of the tokenizer; the class
 * in Tokenizer runs the same rules step by step on its fields and proves
 * that it computes what these functions say.
 */
module Scanner {
  import opened Tokens

  // Byte classes

  predicate IsDigit(c: Byte) { '0' <= c <= '9' }

  predicate IsIdentifierStart(c: Byte) { ('a' <= c <= 'z') || ('A' <= c <= 'Z') || c == '_' || c == '$' }

  predicate IsIdentifierByte(c: Byte) { IsIdentifierStart(c) || IsDigit(c) }

  predicate IsHexDigit(c: Byte) { IsDigit(c) || ('a' <= c <= 'f') || ('A' <= c <= 'F') }

  predicate IsSpace(c: Byte) { c == ' ' || c == '\t' || c == '\n' || c == '\r' }

  /** The bytes that end a line comment; end of input reads as NUL. */
  predicate IsLineEnd(c: Byte) { c == '\r' || c == '\n' || c == '\0' }

  // Error messages, verbatim

  const UnterminatedComment := "unterminated comment"
  const UnderscoreFirstOrLast := "numeric literal cannot have an underscore as it's first or last character"
  const TerminatesWithDot := "numeric literal cannot terminate with a dot"
  const UnderscoreLast := "numeric literal cannot have an underscore as it's last character"
  const InvalidUnicode := "invalid unicode"
  const InvalidEscape := "invalid escape sequence"
  const StringNotCompleted := "string literal is not completed"
  const SymbolNotCompleted := "symbol literal is not completed"
  const UnknownOperator := "unknown operator"

  // Cursor

  /** The byte at offset k, or NUL at and past the end of the buffer. */
  function PeekAt(src: seq<Byte>, k: nat): Byte
  {
    if k < |src| then src[k] else '\0'
  }

  /** The position after consuming byte c at position p. */
  function Advance(p: Frame, c: Byte): Frame
  {
    if c == '\n' then Frame(p.offset + 1, p.line + 1, 1) else Frame(p.offset + 1, p.line, p.column + 1)
  }

  /** The position the cursor has after k calls of `next` from the start
      (offset 0, line 1, column 1); past the end each call reads NUL. */
  function PositionAt(src: seq<Byte>, k: nat): (p: Frame)
    ensures p.offset == k && p.line >= 1 && p.column >= 1
    decreases k
  {
    if k == 0 then Frame(0, 1, 1) else Advance(PositionAt(src, k - 1), PeekAt(src, k - 1))
  }

  /** One call of `next` from offset k: the offset moves one byte on, a line
      feed starts the next line at column 1, and any other byte (NUL past the
      end included) moves one column right. */
  lemma PositionAdvances(src: seq<Byte>, k: nat)
    ensures var p, q := PositionAt(src, k), PositionAt(src, k + 1);
      && q.offset == p.offset + 1
      && (PeekAt(src, k) == '\n' ==> q.line == p.line + 1 && q.column == 1)
      && (PeekAt(src, k) != '\n' ==> q.line == p.line && q.column == p.column + 1)
  {
  }

  function Min(a: nat, b: nat): nat { if a <= b then a else b }

  /** The line of offset k is one more than the number of LF bytes before k. */
  lemma {:induction false} LineCountsNewlines(src: seq<Byte>, k: nat)
    ensures PositionAt(src, k).line == 1 + multiset(src[..Min(k, |src|)])['\n']
  {
    if k > 0 {
      LineCountsNewlines(src, k - 1);
      if k <= |src| {
        assert src[..k] == src[..k - 1] + [src[k - 1]];
      } else {
        assert Min(k, |src|) == Min(k - 1, |src|);
      }
    }
  }

  /** The column of offset k counts from the start of its line: the offset s
      just after the last LF before k, or 0 when there is none. */
  lemma {:induction false} ColumnCountsFromLineStart(src: seq<Byte>, k: nat, s: nat)
    requires s <= k
    requires s == 0 || PeekAt(src, s - 1) == '\n'
    requires forall j :: s <= j < k ==> PeekAt(src, j) != '\n'
    ensures PositionAt(src, k).column == k - s + 1
  {
    if k > s {
      ColumnCountsFromLineStart(src, k - 1, s);
    }
  }

  // Trivia (tokenizer.c:58-95)

  /** The offset just past the terminator of a line comment whose text
      starts at j; the terminator is consumed even when it is end of input. */
  function LineCommentEnd(src: seq<Byte>, j: nat): (e: nat)
    requires j <= |src|
    ensures j < e <= |src| + 1
    ensures forall i :: j <= i < e - 1 ==> !IsLineEnd(PeekAt(src, i))
    ensures IsLineEnd(PeekAt(src, e - 1))
    decreases |src| - j
  {
    if IsLineEnd(PeekAt(src, j)) then j + 1 else LineCommentEnd(src, j + 1)
  }

  predicate OpensBlockComment(src: seq<Byte>, k: nat) { PeekAt(src, k) == '/' && PeekAt(src, k + 1) == '*' }

  predicate OpensLineComment(src: seq<Byte>, k: nat) { PeekAt(src, k) == '/' && PeekAt(src, k + 1) == '/' }

  predicate ClosesBlockComment(src: seq<Byte>, k: nat) { PeekAt(src, k) == '*' && PeekAt(src, k + 1) == '/' }

  /** Whether the skipper consumes anything at offset k. */
  predicate StartsTrivia(src: seq<Byte>, k: nat)
  {
    OpensBlockComment(src, k) || OpensLineComment(src, k) || IsSpace(PeekAt(src, k))
  }

  datatype CommentEnd = Closed(end: nat) | Unterminated(end: nat)

  /** Scans the inside of a block comment from j: closed just past the first
      `*` `/` pair, or unterminated at the end of input. */
  function BlockCommentRest(src: seq<Byte>, j: nat): (r: CommentEnd)
    requires j <= |src|
    ensures j <= r.end <= |src|
    ensures r.Closed? ==> j + 2 <= r.end && ClosesBlockComment(src, r.end - 2)
    ensures r.Unterminated? ==> r.end == |src|
    ensures forall i :: j <= i < (if r.Closed? then r.end - 2 else |src|) ==> !ClosesBlockComment(src, i)
    decreases |src| - j
  {
    if ClosesBlockComment(src, j) then Closed(j + 2)
    else if j >= |src| then Unterminated(j)
    else BlockCommentRest(src, j + 1)
  }

  /** Where the skipper stops, and the start of the last unterminated block
      comment it met (`latched` is the one met before offset k). */
  datatype Skipped = Skipped(end: nat, unterminated: Option<nat>)

  function SkipFrom(src: seq<Byte>, k: nat, latched: Option<nat>): (r: Skipped)
    ensures k <= r.end && (r.end <= |src| + 1 || r.end == k)
    ensures !StartsTrivia(src, r.end)
    ensures r.unterminated != latched ==>
              r.unterminated.Some? && k <= r.unterminated.value && OpensBlockComment(src, r.unterminated.value)
              && r.end >= |src|
    decreases |src| + 1 - k
  {
    if OpensBlockComment(src, k) then
      match BlockCommentRest(src, k + 2)
      case Closed(e) => SkipFrom(src, e, latched)
      case Unterminated(e) => SkipFrom(src, e, Some(k))
    else if OpensLineComment(src, k) then SkipFrom(src, LineCommentEnd(src, k + 2), latched)
    else if IsSpace(PeekAt(src, k)) then SkipFrom(src, k + 1, latched)
    else Skipped(k, latched)
  }

  /** Skipping is idempotent: skipping again from where it stopped consumes nothing. */
  lemma SkipIdempotent(src: seq<Byte>, k: nat, latched: Option<nat>)
    ensures SkipFrom(src, SkipFrom(src, k, latched).end, None) == Skipped(SkipFrom(src, k, latched).end, None)
  {
  }

  /** At or past the end of input the skipper consumes nothing and latches nothing. */
  lemma SkipAtEnd(src: seq<Byte>, k: nat, latched: Option<nat>)
    requires |src| <= k
    ensures SkipFrom(src, k, latched) == Skipped(k, latched)
  {
  }

  /** An unterminated block comment carries the skipper to the end of input. */
  lemma {:induction false} SkipUnterminated(src: seq<Byte>, k: nat)
    requires SkipFrom(src, k, None).unterminated.Some?
    ensures SkipFrom(src, k, None).end >= |src|
    ensures OpensBlockComment(src, SkipFrom(src, k, None).unterminated.value)
  {
  }

  /** The result of one scanner: the kind (`Error` on failure), the offset it
      stops at, and the error it latched, if any. */
  datatype Scan = Scan(kind: TokenType, end: nat, latched: Option<TokenizerError>)

  /** A scanner result as the controller needs it: a failure latches an error,
      a success latches none and consumes at least one byte of the buffer. */
  predicate Sound(src: seq<Byte>, f: nat, r: Scan)
  {
    f <= r.end && (r.kind == Error <==> r.latched.Some?) && (r.kind != Error ==> f < r.end <= |src|)
  }

  /** What the controller as written relies on: a failure latches an error
      and a success consumes at least one byte of the buffer. Unlike `Sound`,
      a success may carry an error latched on the way. */
  predicate Ends(src: seq<Byte>, f: nat, r: Scan)
  {
    f <= r.end && (r.kind == Error ==> r.latched.Some?) && (r.kind != Error ==> f < r.end <= |src|)
  }

  function Fail(src: seq<Byte>, message: string, at: nat, end: nat): Scan
  {
    Scan(Error, end, Some(TokenizerError(message, PositionAt(src, at))))
  }

  // Token text (tokenizer.c:97-103)

  /** The bytes of s up to its first NUL: what `slice` keeps of the token's
      bytes, since it copies them with `strncpy`. */
  function CString(s: seq<Byte>): (r: seq<Byte>)
    ensures r <= s
    ensures forall i :: 0 <= i < |r| ==> r[i] != '\0'
    ensures |r| < |s| ==> s[|r|] == '\0'
  {
    if |s| == 0 || s[0] == '\0' then [] else [s[0]] + CString(s[1..])
  }

  /** Bytes without a NUL are copied whole. */
  lemma {:induction false} CStringWithoutNul(s: seq<Byte>)
    requires forall i :: 0 <= i < |s| ==> s[i] != '\0'
    ensures CString(s) == s
  {
    if |s| > 0 {
      CStringWithoutNul(s[1..]);
    }
  }

  // Identifiers and keywords (tokenizer.c:105-134)

  /** The end of the run of identifier bytes starting at j. */
  function IdentifierEnd(src: seq<Byte>, j: nat): (e: nat)
    requires j <= |src|
    ensures j <= e <= |src|
    ensures forall i :: j <= i < e ==> IsIdentifierByte(src[i])
    ensures !IsIdentifierByte(PeekAt(src, e))
    decreases |src| - j
  {
    if IsIdentifierByte(PeekAt(src, j)) then IdentifierEnd(src, j + 1) else j
  }

  /** The kind of an identifier-shaped lexeme: a keyword on an exact match,
      otherwise `Identifier`. The comparisons of the chain are grouped by the
      length and the first byte of the lexeme; the keywords are distinct, so the
      grouping does not change the result. */
  function KeywordKind(lexeme: string): (k: TokenType)
    ensures k != Error
  {
    if |lexeme| == 0 then Identifier
    else match |lexeme|
    case 2 =>
      (match lexeme[0]
      case 'i' => if lexeme == "is" then Is else if lexeme == "if" then If else Identifier
      case 'a' => if lexeme == "as" then As else Identifier
      case 'f' => if lexeme == "fn" then Fn else Identifier
      case 'd' => if lexeme == "do" then Do else Identifier
      case _ => Identifier)
    case 3 =>
      (match lexeme[0]
      case 'v' => if lexeme == "var" then Var else if lexeme == "val" then Val else Identifier
      case 'f' => if lexeme == "for" then For else Identifier
      case _ => Identifier)
    case 4 =>
      (match lexeme[0]
      case 'e' => if lexeme == "else" then Else else Identifier
      case 't' => if lexeme == "this" then This else if lexeme == "true" then True else Identifier
      case _ => Identifier)
    case 5 =>
      (match lexeme[0]
      case 'w' => if lexeme == "while" then While else Identifier
      case 'b' => if lexeme == "break" then Break else Identifier
      case 'f' => if lexeme == "false" then False else Identifier
      case _ => Identifier)
    case 6 =>
      (match lexeme[0]
      case 'i' => if lexeme == "import" then Import else Identifier
      case 's' => if lexeme == "struct" then Struct else Identifier
      case 'r' => if lexeme == "return" then Return else Identifier
      case _ => Identifier)
    case 7 =>
      (match lexeme[0]
      case 'p' => if lexeme == "package" then Package else Identifier
      case _ => Identifier)
    case 8 =>
      (match lexeme[0]
      case 'c' => if lexeme == "continue" then Continue else Identifier
      case _ => Identifier)
    case _ => Identifier
  }

  /** A lexeme is classified as a keyword exactly when it spells that keyword. */
  lemma KeywordExact(lexeme: string)
    ensures KeywordKind(lexeme) == Identifier || (IsKeyword(KeywordKind(lexeme)) && lexeme == Spelling(KeywordKind(lexeme)))
  {
    if |lexeme| == 2 {
      KeywordExactTwoBytes(lexeme);
    } else if |lexeme| == 3 {
      KeywordExactThreeBytes(lexeme);
    } else if 4 <= |lexeme| <= 5 {
      KeywordExactMedium(lexeme);
    } else if 6 <= |lexeme| {
      KeywordExactLong(lexeme);
    }
  }

  /** `KeywordExact` for lexemes of two bytes. */
  lemma KeywordExactTwoBytes(lexeme: string)
    requires |lexeme| == 2
    ensures KeywordKind(lexeme) == Identifier || (IsKeyword(KeywordKind(lexeme)) && lexeme == Spelling(KeywordKind(lexeme)))
  {
    var k := KeywordKind(lexeme);
    if k == Is { assert lexeme == "is"; }
    else if k == As { assert lexeme == "as"; }
    else if k == Fn { assert lexeme == "fn"; }
    else if k == If { assert lexeme == "if"; }
    else if k == Do { assert lexeme == "do"; }
  }

  /** `KeywordExact` for lexemes of three bytes. */
  lemma KeywordExactThreeBytes(lexeme: string)
    requires |lexeme| == 3
    ensures KeywordKind(lexeme) == Identifier || (IsKeyword(KeywordKind(lexeme)) && lexeme == Spelling(KeywordKind(lexeme)))
  {
    var k := KeywordKind(lexeme);
    if k == Var { assert lexeme == "var"; }
    else if k == Val { assert lexeme == "val"; }
    else if k == For { assert lexeme == "for"; }
  }

  /** `KeywordExact` for lexemes of four or five bytes. */
  lemma KeywordExactMedium(lexeme: string)
    requires 4 <= |lexeme| <= 5
    ensures KeywordKind(lexeme) == Identifier || (IsKeyword(KeywordKind(lexeme)) && lexeme == Spelling(KeywordKind(lexeme)))
  {
    var k := KeywordKind(lexeme);
    if k == Else { assert lexeme == "else"; }
    else if k == This { assert lexeme == "this"; }
    else if k == True { assert lexeme == "true"; }
    else if k == While { assert lexeme == "while"; }
    else if k == Break { assert lexeme == "break"; }
    else if k == False { assert lexeme == "false"; }
  }

  /** `KeywordExact` for lexemes of six bytes or more. */
  lemma KeywordExactLong(lexeme: string)
    requires 6 <= |lexeme|
    ensures KeywordKind(lexeme) == Identifier || (IsKeyword(KeywordKind(lexeme)) && lexeme == Spelling(KeywordKind(lexeme)))
  {
    var k := KeywordKind(lexeme);
    if k == Import { assert lexeme == "import"; }
    else if k == Struct { assert lexeme == "struct"; }
    else if k == Return { assert lexeme == "return"; }
    else if k == Package { assert lexeme == "package"; }
    else if k == Continue { assert lexeme == "continue"; }
  }

  /** Each keyword's spelling is classified as that keyword: no earlier entry of
      the comparison chain shadows it. */
  lemma KeywordOfSpelling(k: TokenType)
    requires IsKeyword(k)
    ensures KeywordKind(Spelling(k)) == k
  {
    match k
    case Is | As | Fn | If | Do | Var | Val | For => KeywordOfShortSpelling(k);
    case Else | This | True | While | Break | False | Import | Struct | Return | Package | Continue => KeywordOfLongSpelling(k);
  }

  /** `KeywordOfSpelling` for the keywords of two or three bytes. */
  lemma KeywordOfShortSpelling(k: TokenType)
    requires k in {Is, As, Fn, If, Do, Var, Val, For}
    ensures KeywordKind(Spelling(k)) == k
  {
    match k
    case Is =>
    case As =>
    case Fn =>
    case If =>
    case Do =>
    case Var =>
    case Val =>
    case For =>
    case _ => assert false;
  }

  /** `KeywordOfSpelling` for the keywords of four bytes or more. */
  lemma KeywordOfLongSpelling(k: TokenType)
    requires k in {Else, This, True, While, Break, False, Import, Struct, Return, Package, Continue}
    ensures KeywordKind(Spelling(k)) == k
  {
    match k
    case Else =>
    case This =>
    case True =>
    case While =>
    case Break =>
    case False =>
    case Import =>
    case Struct =>
    case Return =>
    case Package =>
    case Continue =>
    case _ => assert false;
  }


  /** Identifiers are the lexemes that spell no keyword; so `iffy` and `if2` are
      identifiers while `if` is not. */
  lemma IdentifierIffNoKeyword(lexeme: string)
    ensures KeywordKind(lexeme) == Identifier <==> forall k :: IsKeyword(k) ==> lexeme != Spelling(k)
  {
    if KeywordKind(lexeme) != Identifier {
      KeywordExact(lexeme);
    } else {
      forall k | IsKeyword(k) ensures lexeme != Spelling(k) {
        KeywordOfSpelling(k);
      }
    }
  }

  /** The identifier scanner: one byte, then every identifier byte after it. */
  function IdentifierScan(src: seq<Byte>, f: nat): (r: Scan)
    requires f < |src|
    ensures Sound(src, f, r)
  {
    var e := IdentifierEnd(src, f + 1);
    Scan(KeywordKind(CString(src[f..e])), e, None)
  }

  /** Maximal munch: an identifier-start byte begins a token made of identifier
      bytes only, followed by a byte that is not one, whose kind is the keyword
      it spells or `Identifier`. */
  lemma IdentifierMaximalMunch(src: seq<Byte>, f: nat)
    requires f < |src| && IsIdentifierStart(src[f])
    ensures var r := IdentifierScan(src, f);
      && Sound(src, f, r)
      && (forall i :: f <= i < r.end ==> IsIdentifierByte(src[i]))
      && !IsIdentifierByte(PeekAt(src, r.end))
      && (r.kind == Identifier || IsKeyword(r.kind))
      && (r.kind == Identifier <==> forall k :: IsKeyword(k) ==> src[f..r.end] != Spelling(k))
  {
    var r := IdentifierScan(src, f);
    CStringWithoutNul(src[f..r.end]);
    KeywordExact(src[f..r.end]);
    IdentifierIffNoKeyword(src[f..r.end]);
  }

  // Decimal parts (tokenizer.c:136-174)

  predicate IsDecimalByte(c: Byte) { IsDigit(c) || c == '_' }

  /** The end of the run of digits and underscores starting at j. */
  function RunEnd(src: seq<Byte>, j: nat): (e: nat)
    requires j <= |src|
    ensures j <= e <= |src|
    ensures forall i :: j <= i < e ==> IsDecimalByte(src[i])
    ensures !IsDecimalByte(PeekAt(src, e))
    decreases |src| - j
  {
    if IsDecimalByte(PeekAt(src, j)) then RunEnd(src, j + 1) else j
  }

  predicate HasDigit(src: seq<Byte>, k: nat, e: nat)
    requires k <= e <= |src|
  {
    exists i :: k <= i < e && IsDigit(src[i])
  }

  /** Where the digit loop of a decimal part stops, whether it met a digit,
      and whether the last byte it consumed was `_`. */
  datatype Run = Run(end: nat, hasDigit: bool, lastUnderscore: bool)

  /** The digit loop from j, with the flags met so far. */
  function DecRun(src: seq<Byte>, j: nat, hasDigit: bool, lastUnderscore: bool): (r: Run)
    requires j <= |src|
    ensures j <= r.end <= |src|
    decreases |src| - j
  {
    var c := PeekAt(src, j);
    if IsDecimalByte(c) then DecRun(src, j + 1, hasDigit || IsDigit(c), c == '_')
    else Run(j, hasDigit, lastUnderscore)
  }

  /** The digit loop stops at the end of the run, and its flags say whether
      the run holds a digit and ends in `_`. */
  lemma {:induction false} DecRunSummary(src: seq<Byte>, k: nat, j: nat, hasDigit: bool, lastUnderscore: bool)
    requires k <= j <= |src|
    requires forall i :: k <= i < j ==> IsDecimalByte(src[i])
    requires hasDigit == HasDigit(src, k, j)
    requires lastUnderscore == (k < j && src[j - 1] == '_')
    ensures var e := RunEnd(src, j);
      DecRun(src, j, hasDigit, lastUnderscore) == Run(e, HasDigit(src, k, e), k < e && src[e - 1] == '_')
    decreases |src| - j
  {
    var c := PeekAt(src, j);
    if IsDecimalByte(c) {
      assert HasDigit(src, k, j + 1) == (hasDigit || IsDigit(c)) by {
        if IsDigit(c) { assert k <= j < j + 1 && IsDigit(src[j]); }
        if HasDigit(src, k, j + 1) && !IsDigit(c) {
          var i :| k <= i < j + 1 && IsDigit(src[i]);
          assert i < j;
        }
      }
      DecRunSummary(src, k, j + 1, hasDigit || IsDigit(c), c == '_');
    }
  }

  datatype Part = PartOk(end: nat) | PartErr(message: string, end: nat)

  /** A run of digits with `_` separators; `req` demands at least one digit. */
  function DecPart(src: seq<Byte>, k: nat, req: bool): (r: Part)
    requires k <= |src|
    ensures k <= r.end <= |src|
  {
    if PeekAt(src, k) == '_' then PartErr(UnderscoreFirstOrLast, k)
    else
      var run := DecRun(src, k, false, false);
      if !run.hasDigit && req then PartErr(TerminatesWithDot, run.end)
      else if run.lastUnderscore then PartErr(UnderscoreLast, run.end)
      else PartOk(run.end)
  }

  /** A decimal part in terms of its run of digits and underscores. */
  lemma DecPartByRun(src: seq<Byte>, k: nat, req: bool)
    requires k <= |src|
    ensures var e := RunEnd(src, k);
      DecPart(src, k, req) ==
        if PeekAt(src, k) == '_' then PartErr(UnderscoreFirstOrLast, k)
        else if !HasDigit(src, k, e) && req then PartErr(TerminatesWithDot, e)
        else if k < e && src[e - 1] == '_' then PartErr(UnderscoreLast, e)
        else PartOk(e)
  {
    assert !HasDigit(src, k, k);
    DecRunSummary(src, k, k, false, false);
  }

  /** The separator rules: a decimal part is accepted exactly when it does not
      start with `_`, does not end with `_`, and has a digit if one is required;
      an accepted part is the whole run, empty or from a digit to a digit. */
  lemma DecPartSeparators(src: seq<Byte>, k: nat, req: bool)
    requires k <= |src|
    ensures var r := DecPart(src, k, req); var e := RunEnd(src, k);
      && (PeekAt(src, k) == '_' ==> r == PartErr(UnderscoreFirstOrLast, k))
      && (PeekAt(src, k) != '_' && req && !HasDigit(src, k, e) ==> r == PartErr(TerminatesWithDot, e))
      && (PeekAt(src, k) != '_' && (req ==> HasDigit(src, k, e)) && k < e && src[e - 1] == '_' ==> r == PartErr(UnderscoreLast, e))
      && (r.PartOk? ==> r.end == e && (e == k || (IsDigit(src[k]) && IsDigit(src[e - 1]))))
      && (r.PartOk? && req ==> HasDigit(src, k, e))
  {
    DecPartByRun(src, k, req);
  }

  /** Re-scanning the integer part with `req` off, as the floating-point path
      does after rewinding, gives back the same part. */
  lemma RewindRescans(src: seq<Byte>, f: nat)
    requires f <= |src|
    requires DecPart(src, f, true).PartOk?
    ensures DecPart(src, f, false) == DecPart(src, f, true)
  {
    DecPartByRun(src, f, false);
    DecPartByRun(src, f, true);
  }

  // Numbers (tokenizer.c:176-243)

  /** The optional suffix of a floating literal at e. */
  function FloatSuffix(src: seq<Byte>, e: nat): Scan
  {
    var c := PeekAt(src, e);
    if c == 'f' || c == 'F' then Scan(FloatNumber, e + 1, None)
    else if c == 'd' || c == 'D' then Scan(DoubleNumber, e + 1, None)
    else Scan(DoubleNumber, e, None)
  }

  /** The optional suffix of an integer literal at e. */
  function IntegerSuffix(src: seq<Byte>, e: nat): Scan
  {
    var c := PeekAt(src, e);
    if c == 'f' || c == 'F' then Scan(FloatNumber, e + 1, None)
    else if c == 'd' || c == 'D' then Scan(DoubleNumber, e + 1, None)
    else if c == 'l' || c == 'L' then Scan(DecLongNumber, e + 1, None)
    else Scan(DecNumber, e, None)
  }

  /** The floating-point scanner, from the token start f. */
  function FloatScan(src: seq<Byte>, f: nat): (r: Scan)
    requires f < |src| && (IsDigit(src[f]) || (src[f] == '.' && IsDigit(PeekAt(src, f + 1))))
    ensures Sound(src, f, r)
    ensures r.kind in {FloatNumber, DoubleNumber, Error}
  {
    match DecPart(src, f, false)
    case PartErr(m, e) => Fail(src, m, f, e)
    case PartOk(e) => FractionScan(src, f, e)
  }

  /** The rest of a floating literal from e, the end of its integer part: an
      optional `.` and fraction, then the suffix. Errors are reported at the
      token start f. */
  function FractionScan(src: seq<Byte>, f: nat, e: nat): (r: Scan)
    requires f <= e <= |src|
    ensures e <= r.end && (r.kind == Error <==> r.latched.Some?) && (r.kind != Error ==> r.end <= |src|)
    ensures r.kind in {FloatNumber, DoubleNumber, Error}
  {
    if PeekAt(src, e) == '.' then
      match DecPart(src, e + 1, true)
      case PartErr(m, e2) => Fail(src, m, f, e2)
      case PartOk(e2) => FloatSuffix(src, e2)
    else FloatSuffix(src, e)
  }

  /** The decimal scanner, from the token start f. */
  function DecNumberScan(src: seq<Byte>, f: nat): (r: Scan)
    requires f < |src| && IsDigit(src[f])
    ensures Sound(src, f, r)
    ensures r.kind in {DecNumber, DecLongNumber, FloatNumber, DoubleNumber, Error}
  {
    match DecPart(src, f, true)
    case PartErr(m, e) => Fail(src, m, f, e)
    case PartOk(e) =>
      var c := PeekAt(src, e);
      if c == '.' then FloatScan(src, f) else IntegerSuffix(src, e)
  }

  /** The number scanner: a `.` not followed by a digit is the `Dot` token. */
  function NumberScan(src: seq<Byte>, f: nat): (r: Scan)
    requires f < |src| && (IsDigit(src[f]) || src[f] == '.')
    ensures Sound(src, f, r)
    ensures r.kind in {Dot, DecNumber, DecLongNumber, FloatNumber, DoubleNumber, Error}
  {
    if PeekAt(src, f) == '.' then
      if IsDigit(PeekAt(src, f + 1)) then FloatScan(src, f) else Scan(Dot, f + 1, None)
    else DecNumberScan(src, f)
  }

  /** A lone `.` is `Dot` after exactly one byte; `.` before a digit starts a
      floating literal whose fraction is the digit run after the dot. */
  lemma DotOrFraction(src: seq<Byte>, f: nat)
    requires f < |src| && src[f] == '.'
    ensures !IsDigit(PeekAt(src, f + 1)) ==> NumberScan(src, f) == Scan(Dot, f + 1, None)
    ensures IsDigit(PeekAt(src, f + 1)) ==>
              var e := RunEnd(src, f + 1);
              NumberScan(src, f) == (if src[e - 1] == '_' then Fail(src, UnderscoreLast, f, e) else FloatSuffix(src, e))
  {
    if IsDigit(PeekAt(src, f + 1)) {
      assert DecPart(src, f, false) == PartOk(f);
      var e := RunEnd(src, f + 1);
      assert HasDigit(src, f + 1, e) by { assert IsDigit(src[f + 1]); }
      DecPartByRun(src, f + 1, true);
      assert DecPart(src, f + 1, true) == (if src[e - 1] == '_' then PartErr(UnderscoreLast, e) else PartOk(e));
    }
  }

  /** A number that scans without error has its whole leading digit run as
      integer part. */
  lemma IntegerPartAccepted(src: seq<Byte>, f: nat)
    requires f < |src| && IsDigit(src[f])
    requires DecNumberScan(src, f).kind != Error
    ensures DecPart(src, f, true) == PartOk(RunEnd(src, f))
  {
    var e := RunEnd(src, f);
    assert RunEnd(src, f) == RunEnd(src, f + 1);
    assert HasDigit(src, f, e) by { assert IsDigit(src[f]); }
    DecPartByRun(src, f, true);
  }

  /** The kind of a number without fraction is decided by its suffix: `f`/`F`
      gives a float, `d`/`D` a double, `l`/`L` a long and nothing a plain
      decimal. A suffix is consumed when present. */
  lemma IntegerKindBySuffix(src: seq<Byte>, f: nat)
    requires f < |src| && IsDigit(src[f])
    requires DecNumberScan(src, f).kind != Error
    requires PeekAt(src, RunEnd(src, f)) != '.'
    ensures var r := DecNumberScan(src, f); var e := RunEnd(src, f); var c := PeekAt(src, e);
      && (r.kind == FloatNumber <==> c == 'f' || c == 'F')
      && (r.kind == DoubleNumber <==> c == 'd' || c == 'D')
      && (r.kind == DecLongNumber <==> c == 'l' || c == 'L')
      && (r.kind == DecNumber <==> !(c in {'f', 'F', 'd', 'D', 'l', 'L'}))
      && r.end == (if c in {'f', 'F', 'd', 'D', 'l', 'L'} then e + 1 else e)
  {
    IntegerPartAccepted(src, f);
    assert DecNumberScan(src, f) == IntegerSuffix(src, RunEnd(src, f));
  }

  /** The kind of a number with a fraction is decided by the byte after the
      fraction: `f`/`F` gives a float and anything else a double; a `f`, `F`,
      `d` or `D` suffix is consumed. */
  lemma FractionKindBySuffix(src: seq<Byte>, f: nat)
    requires f < |src| && IsDigit(src[f])
    requires DecNumberScan(src, f).kind != Error
    requires PeekAt(src, RunEnd(src, f)) == '.'
    ensures var r := DecNumberScan(src, f); var e := RunEnd(src, f);
      var e2 := RunEnd(src, e + 1); var s := PeekAt(src, e2);
      && (r.kind == FloatNumber <==> s == 'f' || s == 'F')
      && r.kind in {FloatNumber, DoubleNumber}
      && r.end == (if s in {'f', 'F', 'd', 'D'} then e2 + 1 else e2)
  {
    var e := RunEnd(src, f);
    IntegerPartAccepted(src, f);
    RewindRescans(src, f);
    assert DecNumberScan(src, f) == FloatScan(src, f);
    assert DecPart(src, e + 1, true).PartOk?;
    DecPartByRun(src, e + 1, true);
    assert DecPart(src, e + 1, true) == PartOk(RunEnd(src, e + 1));
    assert FractionScan(src, f, e) == FloatSuffix(src, RunEnd(src, e + 1));
  }

  // Escapes, strings and characters (tokenizer.c:245-325)

  /** The number of hex digits from j, at most n. */
  function HexRun(src: seq<Byte>, j: nat, n: nat): (m: nat)
    ensures m <= n
    ensures forall i :: j <= i < j + m ==> IsHexDigit(PeekAt(src, i))
    ensures m < n ==> !IsHexDigit(PeekAt(src, j + m))
    decreases n
  {
    if n == 0 || !IsHexDigit(PeekAt(src, j)) then 0 else 1 + HexRun(src, j + 1, n - 1)
  }

  datatype Escape = EscapeOk(end: nat) | EscapeErr(message: string, end: nat)

  /** The escape scanner, on a backslash at k; `allowed` is the quote of the
      enclosing literal. On failure the scan stops where the check failed. */
  function EscapeScan(src: seq<Byte>, k: nat, allowed: Byte): (r: Escape)
    requires k < |src|
    ensures k < r.end <= |src|
  {
    var c := PeekAt(src, k + 1);
    if (c == '\'' || c == '"') && c != allowed then EscapeErr(InvalidEscape, k + 1)
    else if c == '\'' || c == '"' || c == 'n' || c == 't' || c == 'r' || c == '0' || c == '\\' then EscapeOk(k + 2)
    else if c == 'u' then
      var m := HexRun(src, k + 2, 4);
      if m == 4 then EscapeOk(k + 6) else EscapeErr(InvalidUnicode, k + 2 + m)
    else EscapeErr(InvalidEscape, k + 1)
  }

  /** The accepted escapes are exactly `\n`, `\t`, `\r`, `\0`, `\\`, the
      enclosing quote, and `\u` with four hex digits; a `\u` without them is an
      invalid unicode escape and anything else an invalid escape sequence. */
  lemma EscapeAccepts(src: seq<Byte>, k: nat, allowed: Byte)
    requires k < |src| && (allowed == '"' || allowed == '\'')
    ensures var r := EscapeScan(src, k, allowed); var c := PeekAt(src, k + 1);
      && (r.EscapeOk? <==> (c in {'n', 't', 'r', '0', '\\', allowed}
                             || (c == 'u' && forall i :: k + 2 <= i < k + 6 ==> IsHexDigit(PeekAt(src, i)))))
      && (r.EscapeOk? ==> r.end == if c == 'u' then k + 6 else k + 2)
      && (r.EscapeErr? ==> r.message == if c == 'u' then InvalidUnicode else InvalidEscape)
  {
    var c := PeekAt(src, k + 1);
    if c == 'u' {
      var m := HexRun(src, k + 2, 4);
      if m < 4 {
        assert !IsHexDigit(PeekAt(src, k + 2 + m));
      }
    }
  }

  /** The string scanner as written: the result of the escape check is ignored,
      so scanning goes on after an invalid escape, whose error stays latched
      (`latched` is the error latched so far in this literal). */
  function StringRest(src: seq<Byte>, f: nat, j: nat, latched: Option<TokenizerError>): (r: Scan)
    requires f < j <= |src|
    ensures j <= r.end <= |src|
    ensures r.kind in {StringLiteral, Error}
    ensures r.kind == Error ==> r.latched == Some(TokenizerError(StringNotCompleted, PositionAt(src, f)))
    decreases |src| - j
  {
    if PeekAt(src, j) == '"' then Scan(StringLiteral, j + 1, latched)
    else if j >= |src| then Fail(src, StringNotCompleted, f, j)
    else if src[j] == '\\' then
      var e := EscapeScan(src, j, '"');
      StringRest(src, f, e.end, if e.EscapeOk? then latched else Some(TokenizerError(e.message, PositionAt(src, j))))
    else StringRest(src, f, j + 1, latched)
  }

  function StringScan(src: seq<Byte>, f: nat): Scan
    requires f < |src|
  {
    StringRest(src, f, f + 1, None)
  }

  /** The string scanner as evidently intended: like the character scanner, it
      fails at the first invalid escape. */
  function CheckedStringRest(src: seq<Byte>, f: nat, j: nat): (r: Scan)
    requires f < j <= |src|
    ensures Sound(src, f, r) && j <= r.end
    ensures r.kind in {StringLiteral, Error}
    decreases |src| - j
  {
    if PeekAt(src, j) == '"' then Scan(StringLiteral, j + 1, None)
    else if j >= |src| then Fail(src, StringNotCompleted, f, j)
    else if src[j] == '\\' then
      var e := EscapeScan(src, j, '"');
      if e.EscapeErr? then Fail(src, e.message, j, e.end) else CheckedStringRest(src, f, e.end)
    else CheckedStringRest(src, f, j + 1)
  }

  function CheckedStringScan(src: seq<Byte>, f: nat): Scan
    requires f < |src|
  {
    CheckedStringRest(src, f, f + 1)
  }

  /** The two string scanners agree on every literal without an invalid escape;
      where one has an invalid escape, the checked one fails with that error. */
  lemma {:induction false} StringScannersAgree(src: seq<Byte>, f: nat, j: nat)
    requires f < j <= |src|
    ensures var checked := CheckedStringRest(src, f, j); var written := StringRest(src, f, j, None);
      checked.kind == StringLiteral ==> written == checked
    ensures var checked := CheckedStringRest(src, f, j);
      checked.kind == Error && checked.latched.value.message != StringNotCompleted ==>
        checked.latched.value.message in {InvalidEscape, InvalidUnicode}
    decreases |src| - j
  {
    if PeekAt(src, j) == '"' || j >= |src| {
    } else if src[j] == '\\' {
      match EscapeScan(src, j, '"')
      case EscapeOk(e) => StringScannersAgree(src, f, e);
      case EscapeErr(m, e) =>
    } else {
      StringScannersAgree(src, f, j + 1);
    }
  }

  /** The bytes from j to k form the body of a string literal: bytes other
      than `"` and the backslash, and escapes, each taken as far as the escape
      scanner reaches. With `checked`, every escape must be valid. */
  predicate StringBody(src: seq<Byte>, j: nat, k: nat, checked: bool)
    requires k <= |src|
    decreases k - j
  {
    if j >= k then j == k
    else if src[j] == '"' then false
    else if src[j] == '\\' then
      var e := EscapeScan(src, j, '"');
      (e.EscapeOk? || !checked) && e.end <= k && StringBody(src, e.end, k, checked)
    else StringBody(src, j + 1, k, checked)
  }

  /** A literal of the scanner as written ends just after a `"` that follows
      a body. */
  lemma {:induction false} StringRestLiteral(src: seq<Byte>, f: nat, j: nat, latched: Option<TokenizerError>)
    requires f < j <= |src|
    ensures var r := StringRest(src, f, j, latched);
      r.kind == StringLiteral ==> j < r.end && src[r.end - 1] == '"' && StringBody(src, j, r.end - 1, false)
    decreases |src| - j
  {
    if PeekAt(src, j) == '"' || j >= |src| {
    } else if src[j] == '\\' {
      var e := EscapeScan(src, j, '"');
      StringRestLiteral(src, f, e.end, if e.EscapeOk? then latched else Some(TokenizerError(e.message, PositionAt(src, j))));
    } else {
      StringRestLiteral(src, f, j + 1, latched);
    }
  }

  /** The scanner as written reports an unfinished literal exactly when the
      body runs to the end of the input, and it then stops there. */
  lemma {:induction false} StringRestIncomplete(src: seq<Byte>, f: nat, j: nat, latched: Option<TokenizerError>)
    requires f < j <= |src|
    ensures StringRest(src, f, j, latched).kind == Error <==> StringBody(src, j, |src|, false)
    ensures StringBody(src, j, |src|, false) ==> StringRest(src, f, j, latched).end == |src|
    decreases |src| - j
  {
    if PeekAt(src, j) == '"' || j >= |src| {
    } else if src[j] == '\\' {
      var e := EscapeScan(src, j, '"');
      StringRestIncomplete(src, f, e.end, if e.EscapeOk? then latched else Some(TokenizerError(e.message, PositionAt(src, j))));
    } else {
      StringRestIncomplete(src, f, j + 1, latched);
    }
  }

  /** Conversely, a body followed by `"` is where the literal of the scanner
      as written ends. */
  lemma {:induction false} StringRestStops(src: seq<Byte>, f: nat, j: nat, k: nat, latched: Option<TokenizerError>)
    requires f < j <= k < |src| && StringBody(src, j, k, false) && src[k] == '"'
    ensures var r := StringRest(src, f, j, latched); r.kind == StringLiteral && r.end == k + 1
    decreases k - j
  {
    if j < k {
      if src[j] == '\\' {
        var e := EscapeScan(src, j, '"');
        StringRestStops(src, f, e.end, k, if e.EscapeOk? then latched else Some(TokenizerError(e.message, PositionAt(src, j))));
      } else {
        StringRestStops(src, f, j + 1, k, latched);
      }
    }
  }

  /** A literal of the checked scanner ends just after a `"` that follows a
      body of valid escapes. */
  lemma {:induction false} CheckedStringRestLiteral(src: seq<Byte>, f: nat, j: nat)
    requires f < j <= |src|
    ensures var r := CheckedStringRest(src, f, j);
      r.kind == StringLiteral ==> j < r.end && src[r.end - 1] == '"' && StringBody(src, j, r.end - 1, true)
    decreases |src| - j
  {
    if PeekAt(src, j) == '"' || j >= |src| {
    } else if src[j] == '\\' {
      var e := EscapeScan(src, j, '"');
      if e.EscapeOk? {
        CheckedStringRestLiteral(src, f, e.end);
      }
    } else {
      CheckedStringRestLiteral(src, f, j + 1);
    }
  }

  /** The checked scanner reports an unfinished literal exactly when a body
      of valid escapes runs to the end of the input. */
  lemma {:induction false} CheckedStringRestIncomplete(src: seq<Byte>, f: nat, j: nat)
    requires f < j <= |src|
    ensures CheckedStringRest(src, f, j) == Fail(src, StringNotCompleted, f, |src|) <==> StringBody(src, j, |src|, true)
    decreases |src| - j
  {
    if PeekAt(src, j) == '"' || j >= |src| {
    } else if src[j] == '\\' {
      var e := EscapeScan(src, j, '"');
      if e.EscapeOk? {
        CheckedStringRestIncomplete(src, f, e.end);
      } else {
        assert e.message != StringNotCompleted;
      }
    } else {
      CheckedStringRestIncomplete(src, f, j + 1);
    }
  }

  /** Conversely, after a body of valid escapes the checked scanner stops at
      what follows: a `"` closes the literal, an invalid escape fails with
      that escape's error. */
  lemma {:induction false} CheckedStringRestStops(src: seq<Byte>, f: nat, j: nat, k: nat)
    requires f < j <= k < |src| && StringBody(src, j, k, true)
    ensures src[k] == '"' ==> CheckedStringRest(src, f, j) == Scan(StringLiteral, k + 1, None)
    ensures var e := EscapeScan(src, k, '"');
      src[k] == '\\' && e.EscapeErr? ==> CheckedStringRest(src, f, j) == Fail(src, e.message, k, e.end)
    decreases k - j
  {
    if j < k {
      if src[j] == '\\' {
        CheckedStringRestStops(src, f, EscapeScan(src, j, '"').end, k);
      } else {
        CheckedStringRestStops(src, f, j + 1, k);
      }
    }
  }

  /** The scanner as written on the literal `"\q"`: it returns a string
      literal spanning all four bytes, yet latches an invalid-escape error at
      the backslash, so its result is not a sound scan. */
  lemma StringScanReturnsLiteralWithError()
    ensures var src: seq<Byte> := ['"', '\\', 'q', '"'];
      && StringScan(src, 0) == Scan(StringLiteral, 4, Some(TokenizerError(InvalidEscape, Frame(1, 1, 2))))
      && !Sound(src, 0, StringScan(src, 0))
  {
    var src: seq<Byte> := ['"', '\\', 'q', '"'];
    assert EscapeScan(src, 1, '"') == EscapeErr(InvalidEscape, 2);
    assert PositionAt(src, 1) == Frame(1, 1, 2);
  }

  /** The checked scanner on the same literal stops at the invalid escape
      with `Error` and that error. */
  lemma CheckedStringScanRejectsInvalidEscape()
    ensures var src: seq<Byte> := ['"', '\\', 'q', '"'];
      CheckedStringScan(src, 0) == Scan(Error, 2, Some(TokenizerError(InvalidEscape, Frame(1, 1, 2))))
  {
    var src: seq<Byte> := ['"', '\\', 'q', '"'];
    assert EscapeScan(src, 1, '"') == EscapeErr(InvalidEscape, 2);
    assert PositionAt(src, 1) == Frame(1, 1, 2);
  }

  /** The character scanner, on the opening quote at f. */
  function CharScan(src: seq<Byte>, f: nat): (r: Scan)
    requires f < |src|
    ensures Sound(src, f, r)
    ensures r.kind in {CharLiteral, Error}
  {
    if PeekAt(src, f + 1) == '\\' then
      match EscapeScan(src, f + 1, '\'')
      case EscapeErr(m, e) => Fail(src, m, f + 1, e)
      case EscapeOk(e) => CharClose(src, f, e)
    else CharClose(src, f, f + 2)
  }

  /** The closing quote of a character literal, expected at j. */
  function CharClose(src: seq<Byte>, f: nat, j: nat): (r: Scan)
    requires f < j
    ensures Sound(src, f, r)
    ensures r.end == j + 1 && (r.kind == CharLiteral <==> PeekAt(src, j) == '\'')
    ensures r.kind == Error ==> r.latched == Some(TokenizerError(SymbolNotCompleted, PositionAt(src, f)))
  {
    if PeekAt(src, j) == '\'' then Scan(CharLiteral, j + 1, None)
    else Fail(src, SymbolNotCompleted, f, j + 1)
  }

  /** A character literal is a quote, then one byte other than a backslash or
      one valid escape, then a closing quote. An invalid escape fails with
      that escape's error; a missing closing quote fails with "symbol literal
      is not completed" at the opening quote, after consuming the byte where
      the quote was expected. */
  lemma CharScanShape(src: seq<Byte>, f: nat)
    requires f < |src|
    ensures var r := CharScan(src, f);
      PeekAt(src, f + 1) != '\\' ==>
        r == CharClose(src, f, f + 2) && r.end == f + 3 && (r.kind == CharLiteral <==> PeekAt(src, f + 2) == '\'')
    ensures var r := CharScan(src, f);
      PeekAt(src, f + 1) == '\\' ==>
        (f + 1 < |src| &&
         match EscapeScan(src, f + 1, '\'')
         case EscapeErr(m, e) => r == Fail(src, m, f + 1, e)
         case EscapeOk(e) => r == CharClose(src, f, e) && r.end == e + 1 && (r.kind == CharLiteral <==> PeekAt(src, e) == '\''))
    ensures var r := CharScan(src, f);
      r.kind == CharLiteral ==> f + 3 <= r.end <= |src| && src[r.end - 1] == '\''
  {
  }

  // Operators (tokenizer.c:327-485)

  /** The context rule for a bare `-`: unary when the previous kind lies in the
      enumeration range from `Plus` (numbered 11) to `As` (numbered 48), or is
      `(`, `[`, `return` or `this`. */
  function MinusKind(prev: TokenType): (k: TokenType)
    ensures k == UnaryMinus || k == Minus
  {
    if 11 <= Ordinal(prev) <= 48 || prev == LeftParent || prev == LeftSquare
       || prev == Return || prev == This
    then UnaryMinus
    else Minus
  }

  /** The kinds after which an operand is expected, named one by one. */
  predicate ExpectsOperand(k: TokenType)
  {
    k in {Plus, Minus, Multiply, Divide, Modulo, And, Or, Not,
          Equals, NotEquals, Greater, Less, GreaterOrEqual, LessOrEqual,
          Assign, PlusAssign, MinusAssign, MultiplyAssign, DivideAssign, ModuloAssign,
          BitAnd, BitOr, BitNot, BitXor, BitShiftLeft, BitShiftRight,
          BitAndAssign, BitOrAssign, BitXorAssign, BitShiftLeftAssign, BitShiftRightAssign,
          UnaryMinus, Increment, Decrement, AtSymbol, QuestionMark, Is, As,
          LeftParent, LeftSquare, Return, This}
  }

  /** The enumeration-range test is membership in the named set. */
  lemma MinusRule(prev: TokenType)
    ensures MinusKind(prev) == UnaryMinus <==> ExpectsOperand(prev)
  {
    match prev
    case LeftParent | RightParent | LeftBrace | RightBrace | LeftSquare | RightSquare => MinusRuleBracket(prev);
    case Comma | Dot | Semi | Colon | Implication => MinusRuleSeparator(prev);
    case Plus | Minus | Multiply | Divide | Modulo | And | Or | Not => MinusRuleArithmetic(prev);
    case Equals | NotEquals | Greater | Less | GreaterOrEqual | LessOrEqual => MinusRuleComparison(prev);
    case Assign | PlusAssign | MinusAssign | MultiplyAssign | DivideAssign | ModuloAssign => MinusRuleAssignment(prev);
    case BitAnd | BitOr | BitNot | BitXor | BitShiftLeft | BitShiftRight => MinusRuleBitwise(prev);
    case BitAndAssign | BitOrAssign | BitXorAssign | BitShiftLeftAssign | BitShiftRightAssign => MinusRuleBitwiseAssignment(prev);
    case UnaryMinus | Increment | Decrement | AtSymbol | QuestionMark | Is | As => MinusRulePrefix(prev);
    case Package | Import | Struct | Fn | Return | Val | Var | If | Else => MinusRuleDeclaration(prev);
    case For | Do | While | Continue | Break | This | True | False => MinusRuleStatement(prev);
    case HexLongNumber | BinLongNumber | DecLongNumber | HexNumber | BinNumber | DecNumber | FloatNumber | DoubleNumber => MinusRuleNumber(prev);
    case Identifier | CharLiteral | StringLiteral | Error => MinusRuleTextAndError(prev);
  }

  /** `MinusRule` for brackets. */
  lemma MinusRuleBracket(prev: TokenType)
    requires prev in BracketKinds
    ensures MinusKind(prev) == UnaryMinus <==> ExpectsOperand(prev)
  {
    match prev
    case LeftParent =>
    case RightParent =>
    case LeftBrace =>
    case RightBrace =>
    case LeftSquare =>
    case RightSquare =>
    case _ => assert false;
  }

  /** `MinusRule` for separators and the arrow. */
  lemma MinusRuleSeparator(prev: TokenType)
    requires prev in SeparatorKinds
    ensures MinusKind(prev) == UnaryMinus <==> ExpectsOperand(prev)
  {
    match prev
    case Comma =>
    case Dot =>
    case Semi =>
    case Colon =>
    case Implication =>
    case _ => assert false;
  }

  /** `MinusRule` for arithmetic and logical operators. */
  lemma MinusRuleArithmetic(prev: TokenType)
    requires prev in ArithmeticKinds
    ensures MinusKind(prev) == UnaryMinus <==> ExpectsOperand(prev)
  {
    match prev
    case Plus =>
    case Minus =>
    case Multiply =>
    case Divide =>
    case Modulo =>
    case And =>
    case Or =>
    case Not =>
    case _ => assert false;
  }

  /** `MinusRule` for comparison operators. */
  lemma MinusRuleComparison(prev: TokenType)
    requires prev in ComparisonKinds
    ensures MinusKind(prev) == UnaryMinus <==> ExpectsOperand(prev)
  {
    match prev
    case Equals =>
    case NotEquals =>
    case Greater =>
    case Less =>
    case GreaterOrEqual =>
    case LessOrEqual =>
    case _ => assert false;
  }

  /** `MinusRule` for plain and arithmetic compound assignment. */
  lemma MinusRuleAssignment(prev: TokenType)
    requires prev in AssignmentKinds
    ensures MinusKind(prev) == UnaryMinus <==> ExpectsOperand(prev)
  {
    match prev
    case Assign =>
    case PlusAssign =>
    case MinusAssign =>
    case MultiplyAssign =>
    case DivideAssign =>
    case ModuloAssign =>
    case _ => assert false;
  }

  /** `MinusRule` for bitwise operators. */
  lemma MinusRuleBitwise(prev: TokenType)
    requires prev in BitwiseKinds
    ensures MinusKind(prev) == UnaryMinus <==> ExpectsOperand(prev)
  {
    match prev
    case BitAnd =>
    case BitOr =>
    case BitNot =>
    case BitXor =>
    case BitShiftLeft =>
    case BitShiftRight =>
    case _ => assert false;
  }

  /** `MinusRule` for bitwise compound assignment. */
  lemma MinusRuleBitwiseAssignment(prev: TokenType)
    requires prev in BitwiseAssignmentKinds
    ensures MinusKind(prev) == UnaryMinus <==> ExpectsOperand(prev)
  {
    match prev
    case BitAndAssign =>
    case BitOrAssign =>
    case BitXorAssign =>
    case BitShiftLeftAssign =>
    case BitShiftRightAssign =>
    case _ => assert false;
  }

  /** `MinusRule` for unary minus, increment, decrement, `@`, `?`, `is`, `as`. */
  lemma MinusRulePrefix(prev: TokenType)
    requires prev in PrefixKinds
    ensures MinusKind(prev) == UnaryMinus <==> ExpectsOperand(prev)
  {
    match prev
    case UnaryMinus =>
    case Increment =>
    case Decrement =>
    case AtSymbol =>
    case QuestionMark =>
    case Is =>
    case As =>
    case _ => assert false;
  }

  /** `MinusRule` for `package` to `else`. */
  lemma MinusRuleDeclaration(prev: TokenType)
    requires prev in DeclarationKinds
    ensures MinusKind(prev) == UnaryMinus <==> ExpectsOperand(prev)
  {
    match prev
    case Package =>
    case Import =>
    case Struct =>
    case Fn =>
    case Return =>
    case Val =>
    case Var =>
    case If =>
    case Else =>
    case _ => assert false;
  }

  /** `MinusRule` for `for` to `false`. */
  lemma MinusRuleStatement(prev: TokenType)
    requires prev in StatementKinds
    ensures MinusKind(prev) == UnaryMinus <==> ExpectsOperand(prev)
  {
    match prev
    case For =>
    case Do =>
    case While =>
    case Continue =>
    case Break =>
    case This =>
    case True =>
    case False =>
    case _ => assert false;
  }

  /** `MinusRule` for the numeric literal kinds. */
  lemma MinusRuleNumber(prev: TokenType)
    requires prev in NumberKinds
    ensures MinusKind(prev) == UnaryMinus <==> ExpectsOperand(prev)
  {
    match prev
    case HexLongNumber =>
    case BinLongNumber =>
    case DecLongNumber =>
    case HexNumber =>
    case BinNumber =>
    case DecNumber =>
    case FloatNumber =>
    case DoubleNumber =>
    case _ => assert false;
  }

  /** `MinusRule` for identifiers, char and string literals, and the error marker. */
  lemma MinusRuleTextAndError(prev: TokenType)
    requires prev in TextAndErrorKinds
    ensures MinusKind(prev) == UnaryMinus <==> ExpectsOperand(prev)
  {
    match prev
    case Identifier =>
    case CharLiteral =>
    case StringLiteral =>
    case Error =>
    case _ => assert false;
  }

  /** The operator classifier on the next three bytes: the kind and the number
      of bytes it spans, or None for a byte that starts no operator. A `.`
      never reaches it: the dispatcher hands every `.` to the number scanner. */
  function OperatorMatch(c0: Byte, c1: Byte, c2: Byte, prev: TokenType): Option<(TokenType, nat)>
    requires c0 != '.'
  {
    match c0
    case '(' => Some((LeftParent, 1))
    case ')' => Some((RightParent, 1))
    case '{' => Some((LeftBrace, 1))
    case '}' => Some((RightBrace, 1))
    case '[' => Some((LeftSquare, 1))
    case ']' => Some((RightSquare, 1))
    case ',' => Some((Comma, 1))
    case ';' => Some((Semi, 1))
    case ':' => Some((Colon, 1))
    case '?' => Some((QuestionMark, 1))
    case '@' => Some((AtSymbol, 1))
    case '~' => Some((BitNot, 1))
    case '=' => if c1 == '=' then Some((Equals, 2)) else Some((Assign, 1))
    case '!' => if c1 == '=' then Some((NotEquals, 2)) else Some((Not, 1))
    case '>' =>
      if c1 == '=' then Some((GreaterOrEqual, 2))
      else if c1 == '>' then (if c2 == '=' then Some((BitShiftRightAssign, 3)) else Some((BitShiftRight, 2)))
      else Some((Greater, 1))
    case '<' =>
      if c1 == '=' then Some((LessOrEqual, 2))
      else if c1 == '<' then (if c2 == '=' then Some((BitShiftLeftAssign, 3)) else Some((BitShiftLeft, 2)))
      else Some((Less, 1))
    case '&' => if c1 == '&' then Some((And, 2)) else if c1 == '=' then Some((BitAndAssign, 2)) else Some((BitAnd, 1))
    case '|' => if c1 == '|' then Some((Or, 2)) else if c1 == '=' then Some((BitOrAssign, 2)) else Some((BitOr, 1))
    case '^' => if c1 == '=' then Some((BitXorAssign, 2)) else Some((BitXor, 1))
    case '+' => if c1 == '+' then Some((Increment, 2)) else if c1 == '=' then Some((PlusAssign, 2)) else Some((Plus, 1))
    case '-' =>
      if c1 == '-' then Some((Decrement, 2))
      else if c1 == '=' then Some((MinusAssign, 2))
      else if c1 == '>' then Some((Implication, 2))
      else Some((MinusKind(prev), 1))
    case '*' => if c1 == '=' then Some((MultiplyAssign, 2)) else Some((Multiply, 1))
    case '/' => if c1 == '=' then Some((DivideAssign, 2)) else Some((Divide, 1))
    case '%' => if c1 == '=' then Some((ModuloAssign, 2)) else Some((Modulo, 1))
    case _ => None
  }

  /** The kinds the operator classifier produces. */
  predicate IsOperatorKind(k: TokenType)
  {
    k in {LeftParent, RightParent, LeftBrace, RightBrace, LeftSquare, RightSquare, Comma, Semi, Colon, Implication, Plus, Minus, Multiply, Divide, Modulo, And, Or, Not, Equals, NotEquals, Greater, Less, GreaterOrEqual, LessOrEqual, Assign, PlusAssign, MinusAssign, MultiplyAssign, DivideAssign, ModuloAssign, BitAnd, BitOr, BitNot, BitXor, BitShiftLeft, BitShiftRight, BitAndAssign, BitOrAssign, BitXorAssign, BitShiftLeftAssign, BitShiftRightAssign, UnaryMinus, Increment, Decrement, AtSymbol, QuestionMark}
  }

  /** The first n of the bytes c0, c1, c2 spell k, stated byte by byte. */
  predicate SpellsAs(k: TokenType, n: nat, c0: Byte, c1: Byte, c2: Byte)
  {
    && 1 <= n <= 3 && |Spelling(k)| == n
    && Spelling(k)[0] == c0
    && (n >= 2 ==> Spelling(k)[1] == c1)
    && (n >= 3 ==> Spelling(k)[2] == c2)
  }

  /** The classifier returns an operator kind whose spelling is exactly the
      bytes it spans. */
  lemma OperatorMatchSpelling(c0: Byte, c1: Byte, c2: Byte, prev: TokenType)
    requires c0 != '.' && OperatorMatch(c0, c1, c2, prev).Some?
    ensures var (k, n) := OperatorMatch(c0, c1, c2, prev).value;
      IsOperatorKind(k) && 1 <= n <= 3 && [c0, c1, c2][..n] == Spelling(k)
  {
    match c0
    case '(' | ')' | '[' | ']' | '{' | '}' => OperatorMatchSpellingBrackets(c0, c1, c2, prev);
    case ',' | ';' | ':' | '?' | '@' | '~' => OperatorMatchSpellingPunctuation(c0, c1, c2, prev);
    case '=' | '!' => OperatorMatchSpellingEquality(c0, c1, c2, prev);
    case '>' | '<' => OperatorMatchSpellingRelational(c0, c1, c2, prev);
    case '&' | '|' | '^' => OperatorMatchSpellingBitwise(c0, c1, c2, prev);
    case '+' => OperatorMatchSpellingPlus(c0, c1, c2, prev);
    case '-' => OperatorMatchSpellingMinus(c0, c1, c2, prev);
    case '*' | '/' | '%' => OperatorMatchSpellingMultiplicative(c0, c1, c2, prev);
    var (k, n) := OperatorMatch(c0, c1, c2, prev).value;
    assert forall i :: 0 <= i < n ==> [c0, c1, c2][..n][i] == Spelling(k)[i];
  }

  /** The spelling property for brackets. */
  lemma OperatorMatchSpellingBrackets(c0: Byte, c1: Byte, c2: Byte, prev: TokenType)
    requires c0 in {'(', ')', '[', ']', '{', '}'}
    ensures var (k, n) := OperatorMatch(c0, c1, c2, prev).value;
      IsOperatorKind(k) && SpellsAs(k, n, c0, c1, c2)
  {
    match c0
    case '(' =>
    case ')' =>
    case '[' =>
    case ']' =>
    case '{' =>
    case '}' =>
  }

  /** The spelling property for the remaining single-byte punctuation. */
  lemma OperatorMatchSpellingPunctuation(c0: Byte, c1: Byte, c2: Byte, prev: TokenType)
    requires c0 in {',', ';', ':', '?', '@', '~'}
    ensures var (k, n) := OperatorMatch(c0, c1, c2, prev).value;
      IsOperatorKind(k) && SpellsAs(k, n, c0, c1, c2)
  {
    match c0
    case ',' =>
    case ';' =>
    case ':' =>
    case '?' =>
    case '@' =>
    case '~' =>
  }

  /** The spelling property for equality, assignment and negation. */
  lemma OperatorMatchSpellingEquality(c0: Byte, c1: Byte, c2: Byte, prev: TokenType)
    requires c0 in {'=', '!'}
    ensures var (k, n) := OperatorMatch(c0, c1, c2, prev).value;
      IsOperatorKind(k) && SpellsAs(k, n, c0, c1, c2)
  {
    match c0
    case '=' =>
    case '!' =>
  }

  /** The spelling property for relational and shift operators. */
  lemma OperatorMatchSpellingRelational(c0: Byte, c1: Byte, c2: Byte, prev: TokenType)
    requires c0 in {'>', '<'}
    ensures var (k, n) := OperatorMatch(c0, c1, c2, prev).value;
      IsOperatorKind(k) && SpellsAs(k, n, c0, c1, c2)
  {
    match c0
    case '>' =>
    case '<' =>
  }

  /** The spelling property for bitwise and logical operators. */
  lemma OperatorMatchSpellingBitwise(c0: Byte, c1: Byte, c2: Byte, prev: TokenType)
    requires c0 in {'&', '|', '^'}
    ensures var (k, n) := OperatorMatch(c0, c1, c2, prev).value;
      IsOperatorKind(k) && SpellsAs(k, n, c0, c1, c2)
  {
    match c0
    case '&' =>
    case '|' =>
    case '^' =>
  }

  /** The spelling property for `+` and the operators it starts. */
  lemma OperatorMatchSpellingPlus(c0: Byte, c1: Byte, c2: Byte, prev: TokenType)
    requires c0 == '+'
    ensures var (k, n) := OperatorMatch(c0, c1, c2, prev).value;
      IsOperatorKind(k) && SpellsAs(k, n, c0, c1, c2)
  {
  }

  /** The spelling property for `-` and the operators it starts. */
  lemma OperatorMatchSpellingMinus(c0: Byte, c1: Byte, c2: Byte, prev: TokenType)
    requires c0 == '-'
    ensures var (k, n) := OperatorMatch(c0, c1, c2, prev).value;
      IsOperatorKind(k) && SpellsAs(k, n, c0, c1, c2)
  {
    if MinusKind(prev) == UnaryMinus {
    } else {
    }
  }

  /** The spelling property for multiplicative operators. */
  lemma OperatorMatchSpellingMultiplicative(c0: Byte, c1: Byte, c2: Byte, prev: TokenType)
    requires c0 in {'*', '/', '%'}
    ensures var (k, n) := OperatorMatch(c0, c1, c2, prev).value;
      IsOperatorKind(k) && SpellsAs(k, n, c0, c1, c2)
  {
    match c0
    case '*' =>
    case '/' =>
    case '%' =>
  }

  /** Maximal munch: no operator spelling that the input starts with is longer
      than the match, and the classifier finds nothing exactly when the input
      starts with no operator spelling at all. */
  lemma OperatorMaximalMunch(c0: Byte, c1: Byte, c2: Byte, prev: TokenType)
    requires c0 != '.'
    ensures OperatorMatch(c0, c1, c2, prev).Some? ==>
      forall k :: IsOperatorKind(k) && Spelling(k) <= [c0, c1, c2] ==> |Spelling(k)| <= OperatorMatch(c0, c1, c2, prev).value.1
    ensures OperatorMatch(c0, c1, c2, prev).None? <==> forall k :: IsOperatorKind(k) ==> !(Spelling(k) <= [c0, c1, c2])
  {
    forall k | IsOperatorKind(k) && Spelling(k) <= [c0, c1, c2]
      ensures OperatorMatch(c0, c1, c2, prev).Some? && |Spelling(k)| <= OperatorMatch(c0, c1, c2, prev).value.1
    {
      OperatorSpellingPrefix(k, c0, c1, c2, prev);
    }
    if OperatorMatch(c0, c1, c2, prev).Some? {
      OperatorMatchSpelling(c0, c1, c2, prev);
      var (k, n) := OperatorMatch(c0, c1, c2, prev).value;
      assert Spelling(k) <= [c0, c1, c2];
    }
  }

  /** Any operator spelling the input starts with is found, and the match is at
      least as long. */
  lemma OperatorSpellingPrefix(k: TokenType, c0: Byte, c1: Byte, c2: Byte, prev: TokenType)
    requires c0 != '.' && IsOperatorKind(k) && Spelling(k) <= [c0, c1, c2]
    ensures OperatorMatch(c0, c1, c2, prev).Some?
    ensures |Spelling(k)| <= OperatorMatch(c0, c1, c2, prev).value.1
  {
    match k
    case LeftParent | RightParent | LeftSquare | RightSquare | LeftBrace | RightBrace => OperatorPrefixBrackets(k, c0, c1, c2, prev);
    case Comma | Semi | Colon | QuestionMark | AtSymbol | BitNot => OperatorPrefixPunctuation(k, c0, c1, c2, prev);
    case Assign | Equals | Not | NotEquals => OperatorPrefixEquality(k, c0, c1, c2, prev);
    case Greater | GreaterOrEqual | BitShiftRight | BitShiftRightAssign | Less | LessOrEqual | BitShiftLeft | BitShiftLeftAssign => OperatorPrefixRelational(k, c0, c1, c2, prev);
    case BitAnd | And | BitAndAssign | BitOr | Or | BitOrAssign | BitXor | BitXorAssign => OperatorPrefixBitwise(k, c0, c1, c2, prev);
    case Plus | Increment | PlusAssign | Minus | UnaryMinus | Decrement | MinusAssign | Implication => OperatorPrefixAdditive(k, c0, c1, c2, prev);
    case Multiply | MultiplyAssign | Divide | DivideAssign | Modulo | ModuloAssign => OperatorPrefixMultiplicative(k, c0, c1, c2, prev);
  }

  /** `OperatorSpellingPrefix` for brackets. */
  lemma OperatorPrefixBrackets(k: TokenType, c0: Byte, c1: Byte, c2: Byte, prev: TokenType)
    requires c0 != '.' && k in {LeftParent, RightParent, LeftSquare, RightSquare, LeftBrace, RightBrace} && Spelling(k) <= [c0, c1, c2]
    ensures OperatorMatch(c0, c1, c2, prev).Some?
    ensures |Spelling(k)| <= OperatorMatch(c0, c1, c2, prev).value.1
  {
    assert Spelling(k)[0] == c0;
    match k
    case LeftParent =>
    case RightParent =>
    case LeftSquare =>
    case RightSquare =>
    case LeftBrace =>
    case RightBrace =>
    case _ => assert false;
  }

  /** `OperatorSpellingPrefix` for the remaining single-byte punctuation. */
  lemma OperatorPrefixPunctuation(k: TokenType, c0: Byte, c1: Byte, c2: Byte, prev: TokenType)
    requires c0 != '.' && k in {Comma, Semi, Colon, QuestionMark, AtSymbol, BitNot} && Spelling(k) <= [c0, c1, c2]
    ensures OperatorMatch(c0, c1, c2, prev).Some?
    ensures |Spelling(k)| <= OperatorMatch(c0, c1, c2, prev).value.1
  {
    assert Spelling(k)[0] == c0;
    match k
    case Comma =>
    case Semi =>
    case Colon =>
    case QuestionMark =>
    case AtSymbol =>
    case BitNot =>
    case _ => assert false;
  }

  /** `OperatorSpellingPrefix` for equality, assignment and negation. */
  lemma OperatorPrefixEquality(k: TokenType, c0: Byte, c1: Byte, c2: Byte, prev: TokenType)
    requires c0 != '.' && k in {Assign, Equals, Not, NotEquals} && Spelling(k) <= [c0, c1, c2]
    ensures OperatorMatch(c0, c1, c2, prev).Some?
    ensures |Spelling(k)| <= OperatorMatch(c0, c1, c2, prev).value.1
  {
    assert Spelling(k)[0] == c0;
    assert |Spelling(k)| >= 2 ==> Spelling(k)[1] == c1;
    match k
    case Assign =>
    case Equals =>
    case Not =>
    case NotEquals =>
    case _ => assert false;
  }

  /** `OperatorSpellingPrefix` for relational and shift operators. */
  lemma OperatorPrefixRelational(k: TokenType, c0: Byte, c1: Byte, c2: Byte, prev: TokenType)
    requires c0 != '.' && k in {Greater, GreaterOrEqual, BitShiftRight, BitShiftRightAssign, Less, LessOrEqual, BitShiftLeft, BitShiftLeftAssign} && Spelling(k) <= [c0, c1, c2]
    ensures OperatorMatch(c0, c1, c2, prev).Some?
    ensures |Spelling(k)| <= OperatorMatch(c0, c1, c2, prev).value.1
  {
    assert Spelling(k)[0] == c0;
    assert |Spelling(k)| >= 2 ==> Spelling(k)[1] == c1;
    assert |Spelling(k)| >= 3 ==> Spelling(k)[2] == c2;
    match k
    case Greater =>
    case GreaterOrEqual =>
    case BitShiftRight =>
    case BitShiftRightAssign =>
    case Less =>
    case LessOrEqual =>
    case BitShiftLeft =>
    case BitShiftLeftAssign =>
    case _ => assert false;
  }

  /** `OperatorSpellingPrefix` for bitwise and logical operators. */
  lemma OperatorPrefixBitwise(k: TokenType, c0: Byte, c1: Byte, c2: Byte, prev: TokenType)
    requires c0 != '.' && k in {BitAnd, And, BitAndAssign, BitOr, Or, BitOrAssign, BitXor, BitXorAssign} && Spelling(k) <= [c0, c1, c2]
    ensures OperatorMatch(c0, c1, c2, prev).Some?
    ensures |Spelling(k)| <= OperatorMatch(c0, c1, c2, prev).value.1
  {
    assert Spelling(k)[0] == c0;
    assert |Spelling(k)| >= 2 ==> Spelling(k)[1] == c1;
    match k
    case BitAnd =>
    case And =>
    case BitAndAssign =>
    case BitOr =>
    case Or =>
    case BitOrAssign =>
    case BitXor =>
    case BitXorAssign =>
    case _ => assert false;
  }

  /** `OperatorSpellingPrefix` for additive operators. */
  lemma OperatorPrefixAdditive(k: TokenType, c0: Byte, c1: Byte, c2: Byte, prev: TokenType)
    requires c0 != '.' && k in {Plus, Increment, PlusAssign, Minus, UnaryMinus, Decrement, MinusAssign, Implication} && Spelling(k) <= [c0, c1, c2]
    ensures OperatorMatch(c0, c1, c2, prev).Some?
    ensures |Spelling(k)| <= OperatorMatch(c0, c1, c2, prev).value.1
  {
    assert Spelling(k)[0] == c0;
    assert |Spelling(k)| >= 2 ==> Spelling(k)[1] == c1;
    match k
    case Plus =>
    case Increment =>
    case PlusAssign =>
    case Minus =>
    case UnaryMinus =>
    case Decrement =>
    case MinusAssign =>
    case Implication =>
    case _ => assert false;
  }

  /** `OperatorSpellingPrefix` for multiplicative operators. */
  lemma OperatorPrefixMultiplicative(k: TokenType, c0: Byte, c1: Byte, c2: Byte, prev: TokenType)
    requires c0 != '.' && k in {Multiply, MultiplyAssign, Divide, DivideAssign, Modulo, ModuloAssign} && Spelling(k) <= [c0, c1, c2]
    ensures OperatorMatch(c0, c1, c2, prev).Some?
    ensures |Spelling(k)| <= OperatorMatch(c0, c1, c2, prev).value.1
  {
    assert Spelling(k)[0] == c0;
    assert |Spelling(k)| >= 2 ==> Spelling(k)[1] == c1;
    match k
    case Multiply =>
    case MultiplyAssign =>
    case Divide =>
    case DivideAssign =>
    case Modulo =>
    case ModuloAssign =>
    case _ => assert false;
  }

  /** The operator scanner, on the token start f. */
  function OperatorScan(src: seq<Byte>, f: nat, prev: TokenType): (r: Scan)
    requires f < |src| && PeekAt(src, f) != '.'
    ensures Sound(src, f, r)
  {
    match OperatorMatch(PeekAt(src, f), PeekAt(src, f + 1), PeekAt(src, f + 2), prev)
    case Some((k, n)) => OperatorInBuffer(src, f, prev); Scan(k, f + n, None)
    case None => Fail(src, UnknownOperator, f, f + 1)
  }

  /** The operator scanner yields an operator kind or fails. */
  lemma OperatorScanKind(src: seq<Byte>, f: nat, prev: TokenType)
    requires f < |src| && PeekAt(src, f) != '.'
    ensures var k := OperatorScan(src, f, prev).kind; k == Error || IsOperatorKind(k)
  {
    var m := OperatorMatch(PeekAt(src, f), PeekAt(src, f + 1), PeekAt(src, f + 2), prev);
    if m.Some? {
      OperatorMatchSpelling(PeekAt(src, f), PeekAt(src, f + 1), PeekAt(src, f + 2), prev);
    }
  }

  /** An operator match never spans a NUL, so it stays inside the buffer. */
  lemma OperatorInBuffer(src: seq<Byte>, f: nat, prev: TokenType)
    requires f < |src| && PeekAt(src, f) != '.'
    ensures var m := OperatorMatch(PeekAt(src, f), PeekAt(src, f + 1), PeekAt(src, f + 2), prev);
      m.Some? ==> m.value.0 != Error && 1 <= m.value.1 <= 3 && f + m.value.1 <= |src|
  {
    if OperatorMatch(PeekAt(src, f), PeekAt(src, f + 1), PeekAt(src, f + 2), prev).Some? {
      OperatorMatchSpan(PeekAt(src, f), PeekAt(src, f + 1), PeekAt(src, f + 2), prev);
    }
  }

  /** The operator scanner in terms of the classifier's answer on the three
      bytes from f. */
  lemma OperatorScanByMatch(src: seq<Byte>, f: nat, prev: TokenType)
    requires f < |src| && PeekAt(src, f) != '.'
    ensures var m := OperatorMatch(PeekAt(src, f), PeekAt(src, f + 1), PeekAt(src, f + 2), prev);
      && (m.None? ==> OperatorScan(src, f, prev) == Fail(src, UnknownOperator, f, f + 1))
      && (m.Some? ==> OperatorScan(src, f, prev) == Scan(m.value.0, f + m.value.1, None)
                      && 1 <= m.value.1 <= 3)
  {
    OperatorInBuffer(src, f, prev);
  }

  /** The classifier spans a second or a third byte only when that byte
      continues an operator, so never a NUL. */
  lemma OperatorMatchSpan(c0: Byte, c1: Byte, c2: Byte, prev: TokenType)
    requires c0 != '.' && OperatorMatch(c0, c1, c2, prev).Some?
    ensures var (k, n) := OperatorMatch(c0, c1, c2, prev).value;
      k != Error && 1 <= n <= 3 && (n >= 2 ==> c1 != '\0') && (n == 3 ==> c2 != '\0')
  {
  }

  /** The scanner as written takes `"\u123"` whole as a string literal,
      latching the short escape's error. */
  lemma ShortUnicodeScansWhole()
    ensures var src: seq<Byte> := ['"', '\\', 'u', '1', '2', '3', '"'];
      StringScan(src, 0) == Scan(StringLiteral, 7, Some(TokenizerError(InvalidUnicode, Frame(1, 1, 2))))
  {
    var src: seq<Byte> := ['"', '\\', 'u', '1', '2', '3', '"'];
    assert HexRun(src, 6, 1) == 0;
    assert HexRun(src, 3, 4) == 3;
    assert EscapeScan(src, 1, '"') == EscapeErr(InvalidUnicode, 6);
    assert PositionAt(src, 1) == Frame(1, 1, 2);
  }
}
