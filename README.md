# c-lexer tokenizer, modelled in Dafny

This project models the tokenizer of `c-lexer` (`src/tokenizer/tokenizer.c`),
a byte-level scanner for a small C-like language. It covers the cursor
(`peek_n`, `peek`, `next`, `next_2`), the trivia skipper with line and block
comments, the identifier and keyword classifier, the decimal, float and
double number grammar with `_` separators and suffixes, escape checking, the
string and character literal scanners, and the maximal-munch operator
classifier with its context rule for unary minus. It also covers the
pull-based controller `tokenizer_next`, the kind-name table
`token_type_to_string`, and the value decoder `token_content_to_value`. The
decoder turns `\uXXXX` escapes into UTF-8 (section 3 of RFC 3629) and
recombines UTF-16 surrogate pairs (section 2.2 of RFC 2781).

The model has five modules:

- `Tokens` (`tokens.dfy`) holds the token kinds and records.
  - The 78 kinds are in the order the C enumeration declares them, so `Ordinal` is the C enumerator value.
  - `Token`, `Frame` and `TokenizerError` are the C records.
  - `KindName` is `token_type_to_string`. `KindOfName` is an independent inverse of it, used to prove that the names identify the kinds.
- `Scanner` (`scanner.dfy`) states every scanning routine as a pure function of the source bytes and a start offset. Each function returns the kind, the end offset and the error the routine latches (`Scan`).
  - Line and column are not stored. They are a function of the offset: `PositionAt` is the fold of `next` over the buffer.
  - The lemmas state the routines' properties: maximal munch, the separator rules, suffix classification, the escapes accepted, the unary-minus rule and operator spellings.
- `Controller` (`controller.dfy`) is `tokenizer_next` as a function `Next` from a state to a token and a new state, with lemmas about the tokens it returns.
  - `Next` uses the corrected string scanner. `NextAsWritten` is the code as written, and the two are proved to agree wherever `Next` returns a token.
- `Tokenizer` (`tokenizer.dfy`) is the context object: a class whose fields (`offset`, `line`, `column`, `frame`, `prev`, `error`) the methods update in place, as the C functions do.
  - Every scanner is a method with the C routine's loops.
  - Each method is proved to end where the corresponding `Scanner` function says, with the error slot that function gives.
  - `Valid()` keeps `line` and `column` equal to those of `offset`.
  - `NextToken` is proved to be one step of `Controller.Next`.
- `Decoder` (`decoder.dfy`) is `token_content_to_value`.
  - The literal branch is a method that fills an array `builder` with an index `bi`, as the C code does.
  - It is proved equal to the function `Decode`. `Decode`'s properties are proved separately: UTF-8 round trip, surrogate-pair round trip, and output length.

Bytes are `char`s below 256. The process-wide `error` global is a field of
the context. The previous kind, which `tokenizer_init` never sets, is a
constructor parameter.

## Model

| member | source | states |
|---|---|---|
| Tokens.Ordinal | src/tokenizer/tokenizer.h:4-97 | each kind's enumerator value is its position in the declaration, below 78 |
| Tokens.KindAtOrdinal | src/tokenizer/tokenizer.h:4-97 | reading a kind's enumerator value back through `KindAt` gives the kind |
| Tokens.OrdinalInjective | src/tokenizer/tokenizer.h:4-97 | no two kinds share an enumerator value |
| Tokens.NameRoundTrip | src/tokenizer/tokenizer.c:584-681 | reading a kind's display name back gives the kind, and no kind is shown as `UNKNOWN_TOKEN` |
| Tokens.NamesDistinct | src/tokenizer/tokenizer.c:584-681 | two kinds have the same display name exactly when they are the same kind |
| Scanner.PositionAt | src/tokenizer/tokenizer.c:39-51 | the cursor after k calls of `next` has offset k and a line and column of at least 1; the step itself is stated by `Scanner.PositionAdvances` |
| Scanner.PositionAdvances | src/tokenizer/tokenizer.c:39-51 | one `next` moves the offset by one; after a line feed the line goes up by one and the column is 1; after any other byte, NUL past the end included, the column goes up by one |
| Scanner.LineCountsNewlines | src/tokenizer/tokenizer.c:39-51 | the line of an offset is one more than the number of line feeds before it |
| Scanner.ColumnCountsFromLineStart | src/tokenizer/tokenizer.c:39-51 | the column of an offset is its distance from the byte after the last line feed, plus one |
| Scanner.LineCommentEnd | src/tokenizer/tokenizer.c:58-65 | a line comment ends just past its first CR, LF or NUL (end of input reads as NUL and is consumed too), and no terminator comes before it |
| Scanner.BlockCommentRest | src/tokenizer/tokenizer.c:67-82 | a block comment closes just past the first `*/` after its opening; without one it runs to the end of input |
| Scanner.SkipFrom | src/tokenizer/tokenizer.c:84-95 | the skipper stops at a byte that starts no white space and no comment; if it met an unterminated block comment, it records that comment's opening and stops at the end of input |
| Scanner.SkipIdempotent | src/tokenizer/tokenizer.c:84-95 | skipping again from where the skipper stopped consumes nothing |
| Scanner.SkipAtEnd | src/tokenizer/tokenizer.c:84-95 | at or past the end of input the skipper consumes nothing and latches nothing |
| Scanner.SkipUnterminated | src/tokenizer/tokenizer.c:67-95 | an unterminated block comment takes the skipper to the end of input, and the recorded position opens a block comment |
| Scanner.CString | src/tokenizer/tokenizer.c:97-103 | `slice` keeps the token's bytes up to the first NUL: a prefix of them with no NUL, cut only at a NUL |
| Scanner.CStringWithoutNul | src/tokenizer/tokenizer.c:97-103 | token bytes without a NUL are copied whole |
| Scanner.IdentifierEnd | src/tokenizer/tokenizer.c:106-108 | the identifier loop consumes identifier bytes only and stops at the first byte that is not one |
| Scanner.KeywordExact | src/tokenizer/tokenizer.c:110-133 | a lexeme is classified as a keyword only when it spells exactly that keyword; otherwise it is `Identifier` |
| Scanner.KeywordOfSpelling | src/tokenizer/tokenizer.c:112-130 | each keyword's spelling is classified as that keyword |
| Scanner.IdentifierIffNoKeyword | src/tokenizer/tokenizer.c:110-133 | a lexeme is `Identifier` exactly when it spells no keyword, so `iffy` and `if2` are identifiers |
| Scanner.IdentifierScan | src/tokenizer/tokenizer.c:105-134 | the identifier scanner succeeds and consumes at least one byte of the buffer |
| Scanner.IdentifierMaximalMunch | src/tokenizer/tokenizer.c:105-133 | an identifier token holds identifier bytes only, is followed by a byte that is not one, and is a keyword exactly when it spells one |
| Scanner.DecRunSummary | src/tokenizer/tokenizer.c:146-159 | the digit loop stops at the end of the run of digits and `_`; its flags say whether the run holds a digit and whether it ends in `_` |
| Scanner.DecPartByRun | src/tokenizer/tokenizer.c:136-174 | a decimal part fails on a leading `_`, then on a missing digit when one is required, then on a trailing `_`; otherwise it accepts the whole run |
| Scanner.DecPartSeparators | src/tokenizer/tokenizer.c:136-174 | each separator error happens exactly in its case, with its message; an accepted part is empty or runs from a digit to a digit |
| Scanner.RewindRescans | src/tokenizer/tokenizer.c:176-183 | rescanning the integer part without requiring a digit, after the rewind, gives the same part |
| Scanner.FloatScan | src/tokenizer/tokenizer.c:176-202 | the floating-point scanner gives a float, a double or an error, and latches an error exactly on failure |
| Scanner.FractionScan | src/tokenizer/tokenizer.c:185-201 | the fraction and suffix never move back, latch an error exactly on failure, and give a float, a double or an error |
| Scanner.DecNumberScan | src/tokenizer/tokenizer.c:204-230 | the decimal scanner gives a decimal, long, float or double number, or an error, and latches an error exactly on failure |
| Scanner.NumberScan | src/tokenizer/tokenizer.c:232-243 | the number scanner gives `Dot`, a number kind or an error, and latches an error exactly on failure |
| Scanner.DotOrFraction | src/tokenizer/tokenizer.c:232-243 | a `.` not followed by a digit is `Dot` after one byte; a `.` followed by a digit starts a floating literal whose fraction is the digit run after it |
| Scanner.IntegerPartAccepted | src/tokenizer/tokenizer.c:204-207 | a number that scans without error has its whole leading digit run as integer part |
| Scanner.IntegerKindBySuffix | src/tokenizer/tokenizer.c:204-229 | without a fraction: `f`/`F` gives a float, `d`/`D` a double, `l`/`L` a long and no suffix a decimal; a suffix is consumed |
| Scanner.FractionKindBySuffix | src/tokenizer/tokenizer.c:176-211 | with a fraction: `f`/`F` gives a float and anything else a double; a `f`, `F`, `d` or `D` suffix is consumed |
| Scanner.HexRun | src/tokenizer/tokenizer.c:266-275 | the hex loop counts at most n hex digits and stops early only at a byte that is not one |
| Scanner.EscapeScan | src/tokenizer/tokenizer.c:245-284 | an escape check consumes the backslash and stays inside the buffer |
| Scanner.EscapeAccepts | src/tokenizer/tokenizer.c:245-284 | an escape is accepted exactly when it is `\n`, `\t`, `\r`, `\0`, `\\`, the enclosing quote, or `\u` with four hex digits; failures report "invalid unicode" for `\u` and "invalid escape sequence" otherwise |
| Scanner.StringRest | src/tokenizer/tokenizer.c:286-305 | the string scanner as written gives a string literal or an error; its only error result is "string literal is not completed" at the token start |
| Scanner.StringRestLiteral | src/tokenizer/tokenizer.c:286-305 | a literal of the scanner as written ends just after a `"` that follows a body of plain bytes and escapes, with no `"` outside an escape before it |
| Scanner.StringRestIncomplete | src/tokenizer/tokenizer.c:288-293 | the scanner as written reports "string literal is not completed" exactly when such a body runs to the end of input, and then stops at the end |
| Scanner.StringRestStops | src/tokenizer/tokenizer.c:286-305 | conversely, a body followed by `"` is where the literal of the scanner as written ends |
| Scanner.CheckedStringRest | src/tokenizer/tokenizer.c:286-305 | the corrected string scanner gives a string literal or an error, and latches an error exactly on failure |
| Scanner.CheckedStringRestLiteral | src/tokenizer/tokenizer.c:286-305 | a literal of the corrected scanner ends just after a `"` that follows a body whose escapes are all valid |
| Scanner.CheckedStringRestIncomplete | src/tokenizer/tokenizer.c:288-293 | the corrected scanner reports "string literal is not completed" at the token start, at the end of input, exactly when a body of valid escapes runs to the end of input |
| Scanner.CheckedStringRestStops | src/tokenizer/tokenizer.c:286-305 | conversely, after a body of valid escapes a `"` closes the literal there, and an invalid escape fails there with that escape's error |
| Scanner.StringScannersAgree | src/tokenizer/tokenizer.c:286-305 | where the corrected scanner accepts a literal, the scanner as written gives the same result; the corrected scanner fails only on an unfinished literal or a bad escape |
| Scanner.StringScanReturnsLiteralWithError | src/tokenizer/tokenizer.c:296-297 | on `"\q"` the scanner as written returns a four-byte string literal while an invalid-escape error stays latched |
| Scanner.ShortUnicodeScansWhole | src/tokenizer/tokenizer.c:296-297 | on `"\u123"` the scanner as written returns a seven-byte string literal while the invalid-unicode error at line 1, column 2 stays latched |
| Scanner.CheckedStringScanRejectsInvalidEscape | src/tokenizer/tokenizer.c:296-297 | on `"\q"` the corrected scanner stops at the escape with `Error` and the invalid-escape error at the backslash |
| Scanner.CharScan | src/tokenizer/tokenizer.c:307-325 | the character scanner gives a character literal or an error, and latches an error exactly on failure |
| Scanner.CharClose | src/tokenizer/tokenizer.c:318-324 | the closing byte is consumed whatever it is; the literal is accepted exactly when that byte is a quote, and otherwise "symbol literal is not completed" is latched at the token start |
| Scanner.CharScanShape | src/tokenizer/tokenizer.c:307-325 | a character literal is a quote, one byte other than a backslash or one valid escape, and a closing quote; an invalid escape fails with that escape's error, and a missing closing quote fails after consuming the byte where it was expected |
| Scanner.MinusKind | src/tokenizer/tokenizer.c:442-450 | a bare `-` is unary minus or minus; which of the two is stated by `Scanner.MinusRule` |
| Scanner.MinusRule | src/tokenizer/tokenizer.c:442-450 | a bare `-` is unary exactly when the previous kind is one of those named one by one: an arithmetic, logical, comparison, assignment or bitwise operator, unary minus, `++`, `--`, `@`, `?`, `is`, `as` (the enumeration range `PLUS..AS`), or `(`, `[`, `return`, `this` |
| Scanner.OperatorMatchSpelling | src/tokenizer/tokenizer.c:327-480 | the classifier returns an operator kind whose spelling is exactly the one to three bytes it consumes |
| Scanner.OperatorMaximalMunch | src/tokenizer/tokenizer.c:327-480 | no operator spelling that the input starts with is longer than the match, and there is no match exactly when the input starts with no operator |
| Scanner.OperatorSpellingPrefix | src/tokenizer/tokenizer.c:327-480 | every operator the input starts with is matched by one at least as long; so `--`, `-=` and `->` win over `-` |
| Scanner.OperatorScan | src/tokenizer/tokenizer.c:327-485 | the operator scanner latches "unknown operator" exactly on failure and otherwise consumes at least one byte of the buffer |
| Scanner.OperatorInBuffer | src/tokenizer/tokenizer.c:327-480 | a match spans one to three bytes and never runs past the buffer, because it never spans a NUL |
| Scanner.OperatorScanKind | src/tokenizer/tokenizer.c:327-485 | the operator scanner yields an operator kind or fails |
| Scanner.OperatorScanByMatch | src/tokenizer/tokenizer.c:327-485 | the operator scanner's result is the classifier's kind and length, or "unknown operator" after one byte |
| Controller.Dispatch | src/tokenizer/tokenizer.c:498-509 | every scanner chosen by the first byte returns a sound result (with the corrected string scanner) |
| Controller.DispatchAsWritten | src/tokenizer/tokenizer.c:498-509 | the dispatcher as written: a failure latches an error and a success consumes input, and it agrees with `Controller.Dispatch` on every first byte other than `"` and wherever `Controller.Dispatch` succeeds |
| Controller.Emit | src/tokenizer/tokenizer.c:511-529 | a failed scan returns no token and keeps the previous kind; otherwise the token has the scan's kind, the frame's offset, line and column, the consumed length and the sliced content, and its kind becomes the previous kind; either way the error slot holds what the scan latched |
| Controller.NextStops | src/tokenizer/tokenizer.c:487-492 | at end of input or with an error latched after skipping, no token is returned and only the skipper's effects remain |
| Controller.NextScans | src/tokenizer/tokenizer.c:487-529 | otherwise the result is the token built from the dispatched scan at the skipper's stop |
| Controller.NextAtEnd | src/tokenizer/tokenizer.c:487-492 | end of stream is sticky: at or past the end a call returns nothing and changes nothing |
| Controller.NextAfterError | src/tokenizer/tokenizer.c:487-492 | once an error is latched no token is returned and an error stays set: the latched one, unless the skipper, which runs first, meets an unterminated block comment, whose error then replaces it |
| Controller.ErrorReplacedBySkip | src/tokenizer/tokenizer.c:488-490 | on `#`, space, `/`, `*` the first call latches "unknown operator" at line 1, column 1; the second call skips into the comment and replaces that error with "unterminated comment" at line 1, column 3 |
| Controller.NextKeepingErrorSticky | src/tokenizer/tokenizer.c:488-490 | with the error tested before skipping, a call with an error latched returns nothing and changes nothing, so the first error latched is the one that stays; without an error it is one step of `Next` |
| Controller.NextTokenStart | src/tokenizer/tokenizer.c:487-529 | a returned token starts where skipping stopped, at a byte that is not trivia, with that byte's line and column, which become the frame |
| Controller.NextTokenSpan | src/tokenizer/tokenizer.c:517-529 | a returned token is non-empty, lies in the input, ends where the new state resumes, and its content is its slice up to any NUL |
| Controller.NextTokenKind | src/tokenizer/tokenizer.c:511-529 | a returned token is never `ERROR` and its kind becomes the previous kind; with the corrected string scanner the error slot stays empty (the code as written can latch one, see `Controller.InvalidEscapeAsWritten`) |
| Controller.NextAsWrittenAgrees | src/tokenizer/tokenizer.c:487-530 | wherever the corrected controller returns a token, the controller as written returns the same token and state |
| Controller.ShortUnicodeAsWritten | src/tokenizer/tokenizer.c:296-297 | on `"\u123"` the controller as written returns the whole seven-byte string token at line 1, column 1, with the invalid-unicode error at line 1, column 2 latched |
| Controller.InvalidEscapeAsWritten | src/tokenizer/tokenizer.c:296-297 | on `"\q"` the controller as written returns the four-byte string token at line 1, column 1 with the invalid-escape error at line 1, column 2 latched, and its next call returns nothing; the corrected controller returns no token and latches the same error |
| Tokenizer.Tokenizer.constructor | src/tokenizer/tokenizer.c:575-579 | a new context is at offset 0, line 1, column 1, with no error |
| Tokenizer.Tokenizer.PeekN | src/tokenizer/tokenizer.c:26-33 | the byte n ahead, or NUL at and past the end |
| Tokenizer.Tokenizer.Peek | src/tokenizer/tokenizer.c:35-37 | the byte at the cursor, or NUL at the end |
| Tokenizer.Tokenizer.Next | src/tokenizer/tokenizer.c:39-51 | returns the byte at the cursor and moves the offset by one, keeping line and column those of the offset |
| Tokenizer.Tokenizer.Next2 | src/tokenizer/tokenizer.c:53-56 | two calls of `next`, giving the second byte |
| Tokenizer.Tokenizer.SkipSingleComment | src/tokenizer/tokenizer.c:58-65 | ends where `Scanner.LineCommentEnd` says |
| Tokenizer.Tokenizer.SkipMultiComment | src/tokenizer/tokenizer.c:67-82 | ends where `Scanner.BlockCommentRest` says; an unterminated comment latches "unterminated comment" at its opening |
| Tokenizer.Tokenizer.Skip | src/tokenizer/tokenizer.c:84-95 | ends where `Scanner.SkipFrom` says, with the error slot of `Controller.AfterSkip` |
| Tokenizer.Tokenizer.TokenizeIdentifier | src/tokenizer/tokenizer.c:105-134 | gives the kind and end of `Scanner.IdentifierScan` |
| Tokenizer.Tokenizer.SkipIdentifierBytes | src/tokenizer/tokenizer.c:106-108 | ends at `Scanner.IdentifierEnd` |
| Tokenizer.Tokenizer.TokenizeDecPart | src/tokenizer/tokenizer.c:136-174 | gives success, end and error of `Scanner.DecPart`; every error is reported at the frame |
| Tokenizer.Tokenizer.TokenizeFloatingPointNumber | src/tokenizer/tokenizer.c:176-202 | gives the result of `Scanner.FloatScan` from the rewound frame |
| Tokenizer.Tokenizer.TokenizeFraction | src/tokenizer/tokenizer.c:185-201 | gives the result of `Scanner.FractionScan` |
| Tokenizer.Tokenizer.TokenizeFloatSuffix | src/tokenizer/tokenizer.c:192-201 | gives the suffix kind and end of `Scanner.FloatSuffix` |
| Tokenizer.Tokenizer.TokenizeDecNumber | src/tokenizer/tokenizer.c:204-230 | gives the result of `Scanner.DecNumberScan` |
| Tokenizer.Tokenizer.TokenizeNumber | src/tokenizer/tokenizer.c:232-243 | gives the result of `Scanner.NumberScan` |
| Tokenizer.Tokenizer.TokenizeEscape | src/tokenizer/tokenizer.c:245-284 | gives the result of `Scanner.EscapeScan`; a failure latches its message at the backslash |
| Tokenizer.Tokenizer.TokenizeString | src/tokenizer/tokenizer.c:286-305 | the scanner as written gives the result of `Scanner.StringScan` |
| Tokenizer.Tokenizer.TokenizeCheckedString | src/tokenizer/tokenizer.c:286-305 | the corrected scanner gives the result of `Scanner.CheckedStringScan` |
| Tokenizer.Tokenizer.TokenizeChar | src/tokenizer/tokenizer.c:307-325 | gives the result of `Scanner.CharScan` |
| Tokenizer.Tokenizer.TokenizeCharClose | src/tokenizer/tokenizer.c:318-324 | gives the result of `Scanner.CharClose` |
| Tokenizer.Tokenizer.TokenizeOperator | src/tokenizer/tokenizer.c:327-485 | gives the result of `Scanner.OperatorScan` for the previous kind |
| Tokenizer.Tokenizer.NextRest | src/tokenizer/tokenizer.c:345-472 | consumes the further bytes of a matched operator |
| Tokenizer.Tokenizer.TokenizeToken | src/tokenizer/tokenizer.c:494-509 | gives the result of `Controller.Dispatch` |
| Tokenizer.Tokenizer.NextToken | src/tokenizer/tokenizer.c:487-530 | returns the token and leaves the state that `Controller.Next` gives |
| Tokenizer.Tokenizer.ScanToken | src/tokenizer/tokenizer.c:494-529 | returns the token and leaves the state that `Controller.Emit` gives for the dispatched scan |
| Tokenizer.Tokenizer.EmitToken | src/tokenizer/tokenizer.c:511-529 | builds the token and records its kind as `Controller.Emit` says |
| Decoder.Utf8 | src/tokenizer/tokenizer.c:739-753 | the encoding has one to four bytes by the range of the code point, with lead byte `0xxxxxxx`, `110xxxxx`, `1110xxxx` or `11110xxx` and continuation bytes `10xxxxxx` |
| Decoder.Utf8RoundTrip | src/tokenizer/tokenizer.c:739-753 | decoding the written bytes gives back the code point |
| Decoder.Combine | src/tokenizer/tokenizer.c:735 | the combined value lies in 0x2400..0x111FFF, so the unsigned arithmetic never wraps |
| Decoder.CombineSplitsBack | src/tokenizer/tokenizer.c:732-737 | a genuine surrogate pair combines into a supplementary code point that splits back into the same pair |
| Decoder.SplitCombinesBack | src/tokenizer/tokenizer.c:732-737 | splitting a supplementary code point into a pair and combining gives it back |
| Decoder.Hex4 | src/tokenizer/tokenizer.c:729 | four hex digits read as a value of at most 0xFFFF |
| Decoder.Step | src/tokenizer/tokenizer.c:726-768 | one loop iteration writes at least one byte and no more bytes than it consumes, and the rest of the text stays well escaped |
| Decoder.DecodeFromShrinks | src/tokenizer/tokenizer.c:723 | the decoded text is no longer than the text, so the builder of four bytes per byte never overflows |
| Decoder.DecodeFromWithoutEscapes | src/tokenizer/tokenizer.c:766-768 | text without a backslash decodes to itself |
| Decoder.PairDecodes | src/tokenizer/tokenizer.c:727-753 | a high and a low surrogate escape decode to the four-byte encoding of the code point they stand for, which splits back into them |
| Decoder.BrokenPairDecodesApart | src/tokenizer/tokenizer.c:732-737 | in the corrected decoder a high surrogate followed by an escape that is not a low surrogate is written on its own and the second escape is decoded by itself |
| Decoder.BrokenPairMisread | src/tokenizer/tokenizer.c:732-737 | `\uD800\u0041` decodes as written to the three bytes of U+2441, and as intended to the encoding of U+D800 followed by `A` |
| Decoder.PrefixBefore | src/tokenizer/tokenizer.c:713-714 | `strcspn` cut: the longest prefix without a stop byte, ended by a stop byte when shorter |
| Decoder.ValueKinds | src/tokenizer/tokenizer.c:683-778 | identifiers, decimal and floating numbers and literals have a value; every other kind has none |
| Decoder.NumberValues | src/tokenizer/tokenizer.c:686-716 | identifiers and decimals keep their content, a long loses its last byte, a floating literal is cut at its first `f`, `F`, `d` or `D` |
| Decoder.Inner | src/tokenizer/tokenizer.c:720-721 | the text between a literal's quotes is the content without its first and last byte, empty for a content of one byte, and NUL-free when the content is |
| Decoder.InnerAgrees | src/tokenizer/tokenizer.c:720-721 | the code as written takes the same text, except on a one-byte content, where its write leaves the copy |
| Decoder.NulCutLiteralAsWritten | src/tokenizer/tokenizer.c:720-721 | on the source `"`, NUL, `"` the tokenizer returns a string token whose content is the opening quote alone; the code as written then writes outside its copy, and the corrected decoder gives the empty value |
| Decoder.LiteralValueBound | src/tokenizer/tokenizer.c:718-774 | a literal's value is no longer than the text between its quotes |
| Decoder.TokenContentToValue | src/tokenizer/tokenizer.c:683-779 | gives `Decoder.Value` of the kind and content |
| Decoder.DecodeLiteral | src/tokenizer/tokenizer.c:718-774 | the builder loop writes exactly `Decoder.Decode` of the text between the quotes |
| Decoder.StringBodyWellEscaped | src/tokenizer/tokenizer.c:286-305 | a string body with valid escapes only is well escaped as the decoder reads it |
| Decoder.CharInnerWellEscaped | src/tokenizer/tokenizer.c:307-325 | the text between the quotes of a character literal is well escaped |
| Decoder.IdentifierDecodable | src/tokenizer/tokenizer.c:105-134 | an identifier or keyword scanned from a NUL-free source can be decoded |
| Decoder.NumberDecodable | src/tokenizer/tokenizer.c:232-243 | a number scanned from a NUL-free source can be decoded |
| Decoder.StringDecodable | src/tokenizer/tokenizer.c:286-305 | a string literal scanned by the corrected scanner from a NUL-free source can be decoded |
| Decoder.CharDecodable | src/tokenizer/tokenizer.c:307-325 | a character literal scanned from a NUL-free source can be decoded |
| Decoder.OperatorDecodable | src/tokenizer/tokenizer.c:327-485 | an operator scanned from a NUL-free source can be decoded |
| Decoder.DispatchDecodable | src/tokenizer/tokenizer.c:494-509 | whatever the dispatcher scans successfully from a NUL-free source can be decoded |
| Decoder.NextTokensDecodable | src/lexer.c:68 | every token the corrected controller (`Controller.Next`) returns from a NUL-free source meets the decoder's requirement, so the driver can decode every such token |
| Decoder.ShortUnicodeUndecodable | src/tokenizer/tokenizer.c:726-729 | the text between the quotes of `"\u123"` is not well escaped, since its `\u` is followed by three hex digits, not the four the decoder reads |
| Decoder.NextAsWrittenUndecodable | src/tokenizer/tokenizer.c:296-297 | the controller as written returns, from the NUL-free source `"\u123"`, a string token whose `\u` escape has three hex digits, which the decoder's requirement excludes |
| Decoder.PutUtf8 | src/tokenizer/tokenizer.c:739-753 | writes exactly the UTF-8 encoding after the bytes already written and advances the index past it |

## Left out

- `tokenizer_init` (src/tokenizer/tokenizer.c:532-582) reads a file. The model builds the context directly from a byte sequence with the constructor.
- The frame, which `tokenizer_init` leaves unset, starts as offset 0, line 1, column 1 in the model. No scanner reads the frame before `tokenizer_next` sets it.
- The driver `src/lexer.c` and the JSON writer library are not part of this model. They are I/O and the `strtol`/`strtod` conversions, which involve floating point.
- `malloc`, `strdup` and `free` ownership, and the failed-allocation branch of `tokenizer_next` (src/tokenizer/tokenizer.c:517-520). Buffers are sequences and arrays.
- The `int` fields (offset, length, line, column) are unbounded integers; overflow on inputs of 2^31 bytes or more is not modelled.
- The hex and binary branches of `token_content_to_value` (src/tokenizer/tokenizer.c:689-706). The scanner never produces those kinds, so `Decoder.Decodable` excludes them.
- Decoder.TokenContentToValue: requires that the text between a literal's quotes be well escaped (`Decoder.Decodable`). `Decoder.NextTokensDecodable` proves this for every token the corrected controller returns from a source without NUL bytes. The controller as written also returns string literals with invalid escapes (see Findings), and the model gives no value for those. `Decoder.NextAsWrittenUndecodable` shows one: `"\u123"`, where the C code reads three digits and decodes U+0123 to the bytes C4 A3. On `"\u1"` the C loop advances six bytes, as for a full escape, and reads beyond its five-byte copy. A NUL inside a string literal of the source cuts the token's content there (`slice`). Dropping the content's last byte can then split an escape. `"\n`, NUL, `"` leaves a lone backslash, which the C code decodes to a NUL byte. `"\u0041`, NUL, `"` leaves `\u004`, which it decodes to the byte 0x04. The model does not give values for these texts.
- Decoder.DecodeLiteral: has the same requirement, for the same inputs.
- Decoder.Hex4: models `sscanf("%4x")` only on four hex digits, which `Decoder.WellEscaped` guarantees after every `\u`. The three-digit reads of NUL-cut literals above are not modelled.
- A `\u0000` escape writes a NUL into a literal's value. The model keeps the bytes after it, where a C caller reading the value as a string stops.
- The `.` case of `tokenize_operator` (src/tokenizer/tokenizer.c:473-477) is unreachable, because `tokenizer_next` sends every `.` to `tokenize_number`. `Scanner.OperatorMatch` and `Tokenizer.Tokenizer.TokenizeOperator` require a first byte other than `.`.
- The `keywords[]` table of `src/tokenizer/tokenizer.h` is never consulted by the scanner. `and`, `or` and `not` therefore scan as identifiers, and the model follows the code.
- Tokenizer.Tokenizer.NextToken: uses the corrected string scanner (see Findings). The string scanner as written is the method `Tokenizer.Tokenizer.TokenizeString`, and the controller as written is `Controller.NextAsWritten`.
- Tokenizer.Tokenizer.TokenizeToken: dispatches strings to the corrected scanner, like `Controller.Dispatch`.
- Controller.Dispatch: uses the corrected string scanner. `Controller.DispatchAsWritten` is the dispatcher as written.
- Controller.Next: like `tokenizer_next` as written, skips before testing the error, so a later unterminated comment can replace a latched error (see Findings); `Controller.NextKeepingError` is the step with the error tested first. It uses the corrected string scanner. `Controller.NextAsWritten` is the code as written, and `Controller.NextAsWrittenAgrees` proves that the two agree wherever `Next` returns a token.
- Decoder.DecodeLiteral: uses the corrected surrogate check (see Findings). `Decoder.DecodeAsWritten` is the code as written.

## Findings

| source | as written | input that shows it | evidently intended | confidence | as-written member | corrected member |
|---|---|---|---|---|---|---|
| src/tokenizer/tokenizer.c:296-297 | `tokenize_string` ignores the result of `tokenize_escape`, so scanning continues after an invalid escape and returns `STRING_LITERAL` while the error stays latched (until a later unterminated block comment replaces it, see the row for lines 488-490) | the literal `"\q"` gives a four-byte string token, and the next call returns nothing | stop with `ERROR` at the first invalid escape, as `tokenize_char` does | not executed | Controller.InvalidEscapeAsWritten | Scanner.CheckedStringRestStops |
| src/tokenizer/tokenizer.c:720-721 | the literal branch copies the content after the opening quote and writes NUL at index `strlen(res) - 1`; on an empty copy that index is `SIZE_MAX`, outside the copy | the source `"`, NUL, `"` gives a string token whose content is `"` alone (the NUL cuts it), and decoding it writes outside the copy; `'`, NUL, `'` does the same for a character token | treat a content without a closing quote as having empty text between the quotes | not executed | Decoder.NulCutLiteralAsWritten | Decoder.Inner |
| src/tokenizer/tokenizer.c:732-737 | a high surrogate escape is combined with whatever `\u` escape follows, without checking that it is a low surrogate | `\uD800\u0041` (a high surrogate, then `A`) decodes to the three bytes E2 91 81 (U+2441) | combine only with a low surrogate in DC00..DFFF, as section 2.2 of RFC 2781 requires, and otherwise decode the two escapes apart | not executed | Decoder.BrokenPairMisread | Decoder.BrokenPairDecodesApart |
| src/tokenizer/tokenizer.c:488-490 | `tokenizer_next` calls `skip` before it tests `error.message`, and `skip_multi_comment` (lines 73-75) overwrites the error on an unterminated comment, so a latched error does not stay the first one reported | `#`, space, `/`, `*`: the first call latches "unknown operator" at line 1, column 1; the second replaces it with "unterminated comment" at line 1, column 3 | test the latched error before skipping, so the first error stays | not executed | Controller.ErrorReplacedBySkip | Controller.NextKeepingErrorSticky |
