/**
 * `token_content_to_value`: the value of a token computed from its content.
 * Numbers lose their suffix, identifiers are kept as they are, and character
 * and string literals lose their quotes and have their escapes decoded, with
 * `\uXXXX` written out in UTF-8 (section 3 of RFC 3629) after combining a
 * UTF-16 surrogate pair into one code point (section 2.2 of RFC 2781).
 */
module Decoder {
  import opened Tokens
  import opened Scanner
  import opened Controller

  function ByteOf(n: nat): Byte
    requires n < 256
  {
    n as char
  }

  /** A C string holds no NUL byte. */
  predicate NoNul(s: seq<Byte>)
  {
    forall i :: 0 <= i < |s| ==> s[i] != '\0'
  }

  // UTF-8 (section 3 of RFC 3629)

  /** The encoder of the decoder: one to four bytes by the range of the code
      point, the lead byte carrying the high bits and each continuation byte
      six more. The C code builds the bytes with shifts and masks; on the
      disjoint bit fields used here `|` is `+`, `>> n` is division by 2^n and
      `& (2^n - 1)` is the remainder modulo 2^n. */
  function Utf8(cp: nat): (bytes: seq<Byte>)
    requires cp < 0x20_0000
    ensures |bytes| == (if cp <= 0x7F then 1 else if cp <= 0x7FF then 2 else if cp <= 0xFFFF then 3 else 4)
    ensures |bytes| == 1 ==> bytes[0] < 0x80 as char
    ensures |bytes| == 2 ==> 0xC0 as char <= bytes[0] <= 0xDF as char
    ensures |bytes| == 3 ==> 0xE0 as char <= bytes[0] <= 0xEF as char
    ensures |bytes| == 4 ==> 0xF0 as char <= bytes[0] <= 0xF7 as char
    ensures forall i :: 1 <= i < |bytes| ==> 0x80 as char <= bytes[i] <= 0xBF as char
  {
    if cp <= 0x7F then [ByteOf(cp)]
    else if cp <= 0x7FF then [ByteOf(0xC0 + (cp / 64) % 32), ByteOf(0x80 + cp % 64)]
    else if cp <= 0xFFFF then
      [ByteOf(0xE0 + (cp / 4096) % 16), ByteOf(0x80 + (cp / 64) % 64), ByteOf(0x80 + cp % 64)]
    else
      [ByteOf(0xF0 + (cp / 262144) % 8), ByteOf(0x80 + (cp / 4096) % 64),
       ByteOf(0x80 + (cp / 64) % 64), ByteOf(0x80 + cp % 64)]
  }

  /** The code point an encoded sequence of one to four bytes stands for:
      the bits below the lead byte's marker, then six bits per continuation
      byte. */
  function Utf8Value(bytes: seq<Byte>): int
    requires 1 <= |bytes| <= 4
  {
    var b := seq(|bytes|, i requires 0 <= i < |bytes| => bytes[i] as int);
    if |b| == 1 then b[0]
    else if |b| == 2 then (b[0] - 0xC0) * 64 + (b[1] - 0x80)
    else if |b| == 3 then (b[0] - 0xE0) * 4096 + (b[1] - 0x80) * 64 + (b[2] - 0x80)
    else (b[0] - 0xF0) * 262144 + (b[1] - 0x80) * 4096 + (b[2] - 0x80) * 64 + (b[3] - 0x80)
  }

  /** Decoding the encoder's bytes gives back the code point. */
  lemma Utf8RoundTrip(cp: nat)
    requires cp < 0x20_0000
    ensures Utf8Value(Utf8(cp)) == cp
  {
    if cp <= 0x7F {
    } else if cp <= 0x7FF {
      Utf8Split2(cp);
    } else if cp <= 0xFFFF {
      Utf8Split3(cp);
    } else {
      Utf8Split4(cp);
    }
  }

  lemma Utf8Split2(cp: nat)
    requires 0x80 <= cp <= 0x7FF
    ensures Utf8Value(Utf8(cp)) == cp
  {
    var hi, lo := cp / 64, cp % 64;
    assert cp == hi * 64 + lo;
    assert hi < 32;
    assert Utf8(cp) == [ByteOf(0xC0 + hi), ByteOf(0x80 + lo)];
  }

  lemma Utf8Split3(cp: nat)
    requires 0x800 <= cp <= 0xFFFF
    ensures Utf8Value(Utf8(cp)) == cp
  {
    var q := cp / 64;
    var a, b, c := q / 64, q % 64, cp % 64;
    assert cp == q * 64 + c;
    assert q == a * 64 + b;
    assert cp / 4096 == a by {
      assert cp == a * 4096 + (b * 64 + c);
    }
    assert a < 16;
    assert Utf8(cp) == [ByteOf(0xE0 + a), ByteOf(0x80 + b), ByteOf(0x80 + c)];
  }

  lemma Utf8Split4(cp: nat)
    requires 0x1_0000 <= cp < 0x20_0000
    ensures Utf8Value(Utf8(cp)) == cp
  {
    var q := cp / 64;
    var r := q / 64;
    var a, b, c, d := r / 64, r % 64, q % 64, cp % 64;
    assert cp == q * 64 + d;
    assert q == r * 64 + c;
    assert r == a * 64 + b;
    assert cp / 4096 == r by {
      assert cp == r * 4096 + (c * 64 + d);
    }
    assert cp / 262144 == a by {
      assert cp == a * 262144 + (b * 4096 + c * 64 + d);
    }
    assert a < 8;
    assert Utf8(cp) == [ByteOf(0xF0 + a), ByteOf(0x80 + b), ByteOf(0x80 + c), ByteOf(0x80 + d)];
  }

  // Surrogate pairs (section 2.2 of RFC 2781)

  predicate IsHighSurrogate(u: int) { 0xD800 <= u <= 0xDBFF }

  predicate IsLowSurrogate(u: int) { 0xDC00 <= u <= 0xDFFF }

  /** The decoder's combination of a high surrogate with the value of the
      following `\u` escape. The C code computes it in unsigned 32-bit
      arithmetic; for any high surrogate and any 16-bit second value the sum
      lies in 0x2400..0x111FFF, so nothing wraps in the result. */
  function Combine(hi: nat, lo: nat): (cp: nat)
    requires IsHighSurrogate(hi) && lo <= 0xFFFF
    ensures 0x2400 <= cp <= 0x11_1FFF
  {
    0x1_0000 + (hi - 0xD800) * 0x400 + lo - 0xDC00
  }

  /** The encoding of a supplementary code point as a surrogate pair. */
  function SplitPair(cp: nat): (pair: (nat, nat))
    requires 0x1_0000 <= cp <= 0x10_FFFF
    ensures IsHighSurrogate(pair.0) && IsLowSurrogate(pair.1)
  {
    (0xD800 + (cp - 0x1_0000) / 0x400, 0xDC00 + (cp - 0x1_0000) % 0x400)
  }

  /** A genuine pair combines into a supplementary code point, and combining
      and splitting are inverse to each other on genuine pairs. */
  lemma CombineSplitsBack(hi: nat, lo: nat)
    requires IsHighSurrogate(hi) && IsLowSurrogate(lo)
    ensures 0x1_0000 <= Combine(hi, lo) <= 0x10_FFFF
    ensures SplitPair(Combine(hi, lo)) == (hi, lo)
  {
    var v := (hi - 0xD800) * 0x400 + (lo - 0xDC00);
    assert Combine(hi, lo) - 0x1_0000 == v;
    assert v / 0x400 == hi - 0xD800 && v % 0x400 == lo - 0xDC00 by {
      assert 0 <= lo - 0xDC00 < 0x400;
    }
  }

  lemma SplitCombinesBack(cp: nat)
    requires 0x1_0000 <= cp <= 0x10_FFFF
    ensures Combine(SplitPair(cp).0, SplitPair(cp).1) == cp
  {
    var v := cp - 0x1_0000;
    assert v == (v / 0x400) * 0x400 + v % 0x400;
  }

  // Escapes

  function HexValue(c: Byte): (v: nat)
    requires IsHexDigit(c)
    ensures v < 16
  {
    if IsDigit(c) then c as int - '0' as int
    else if 'a' <= c <= 'f' then c as int - 'a' as int + 10
    else c as int - 'A' as int + 10
  }

  /** The four hex digits from j read as one number (what `sscanf` with
      `%4x` reads when four hex digits follow). */
  function Hex4(s: seq<Byte>, j: nat): (v: nat)
    requires j + 4 <= |s| && forall k :: j <= k < j + 4 ==> IsHexDigit(s[k])
    ensures v <= 0xFFFF
  {
    HexValue(s[j]) * 4096 + HexValue(s[j + 1]) * 256 + HexValue(s[j + 2]) * 16 + HexValue(s[j + 3])
  }

  /** The byte a two-byte escape stands for; any byte without a meaning of
      its own stands for itself (so `\0` is the digit `0`). */
  function EscapedByte(c: Byte): Byte
  {
    match c
    case 'n' => '\n'
    case 'r' => '\r'
    case 't' => '\t'
    case 'b' => 8 as char
    case 'f' => 12 as char
    case _ => c
  }

  /** True when `\u` starts an escape at i. */
  predicate StartsUnicode(s: seq<Byte>, i: nat)
  {
    i + 1 < |s| && s[i] == '\\' && s[i + 1] == 'u'
  }

  /** From i on, every backslash has a byte after it and every `\u` four hex
      digits: the decoder then never reads past the end of the text. */
  predicate WellEscapedFrom(s: seq<Byte>, i: nat)
    decreases |s| - i
  {
    if i >= |s| then true
    else if s[i] == '\\' then
      if StartsUnicode(s, i) then
        i + 6 <= |s| && (forall k :: i + 2 <= k < i + 6 ==> IsHexDigit(s[k])) && WellEscapedFrom(s, i + 6)
      else i + 1 < |s| && WellEscapedFrom(s, i + 2)
    else WellEscapedFrom(s, i + 1)
  }

  predicate WellEscaped(s: seq<Byte>) { WellEscapedFrom(s, 0) }

  /** One step of the decoder at i: the bytes written and where the next
      step starts. A `\u` escape with a high surrogate followed by another
      `\u` escape combines the two; `checkLow` demands that the second be a
      low surrogate, as section 2.2 of RFC 2781 does, while the code as
      written combines with any value. */
  function Step(s: seq<Byte>, i: nat, checkLow: bool): (r: (seq<Byte>, nat))
    requires i < |s| && WellEscapedFrom(s, i)
    ensures i < r.1 <= |s| && WellEscapedFrom(s, r.1)
    ensures 1 <= |r.0| <= r.1 - i
  {
    if StartsUnicode(s, i) then
      var hi := Hex4(s, i + 2);
      if IsHighSurrogate(hi) && StartsUnicode(s, i + 6) then
        assert WellEscapedFrom(s, i + 6);
        var lo := Hex4(s, i + 8);
        if !checkLow || IsLowSurrogate(lo) then (Utf8(Combine(hi, lo)), i + 12)
        else (Utf8(hi), i + 6)
      else (Utf8(hi), i + 6)
    else if s[i] == '\\' then ([EscapedByte(s[i + 1])], i + 2)
    else ([s[i]], i + 1)
  }

  /** The decoded text from i on. */
  function DecodeFrom(s: seq<Byte>, i: nat, checkLow: bool): (out: seq<Byte>)
    requires i <= |s| && WellEscapedFrom(s, i)
    decreases |s| - i
  {
    if i == |s| then []
    else
      var (bytes, next) := Step(s, i, checkLow);
      bytes + DecodeFrom(s, next, checkLow)
  }

  /** The escape decoder as written: a high surrogate combines with whatever
      `\u` escape follows it. */
  function DecodeAsWritten(s: seq<Byte>): seq<Byte>
    requires WellEscaped(s)
  {
    DecodeFrom(s, 0, false)
  }

  /** The escape decoder as evidently intended: only a low surrogate
      completes a pair. */
  function Decode(s: seq<Byte>): seq<Byte>
    requires WellEscaped(s)
  {
    DecodeFrom(s, 0, true)
  }

  /** The decoded text is never longer than the text, so the `builder`
      buffer of four bytes per input byte never overflows. */
  lemma {:induction false} DecodeFromShrinks(s: seq<Byte>, i: nat, checkLow: bool)
    requires i <= |s| && WellEscapedFrom(s, i)
    ensures |DecodeFrom(s, i, checkLow)| <= |s| - i
    decreases |s| - i
  {
    if i < |s| {
      DecodeFromShrinks(s, Step(s, i, checkLow).1, checkLow);
    }
  }

  /** Text without a backslash decodes to itself. */
  lemma {:induction false} DecodeFromWithoutEscapes(s: seq<Byte>, i: nat, checkLow: bool)
    requires i <= |s| && forall k :: i <= k < |s| ==> s[k] != '\\'
    ensures WellEscapedFrom(s, i) && DecodeFrom(s, i, checkLow) == s[i..]
    decreases |s| - i
  {
    if i < |s| {
      DecodeFromWithoutEscapes(s, i + 1, checkLow);
      assert s[i..] == [s[i]] + s[i + 1..];
    }
  }

  /** A `\u` escape holding a genuine pair decodes, in both decoders, to the
      four-byte encoding of the supplementary code point it stands for. */
  lemma PairDecodes(s: seq<Byte>, i: nat, checkLow: bool)
    requires i < |s| && WellEscapedFrom(s, i) && StartsUnicode(s, i)
    requires IsHighSurrogate(Hex4(s, i + 2)) && StartsUnicode(s, i + 6) && WellEscapedFrom(s, i + 6)
    requires IsLowSurrogate(Hex4(s, i + 8))
    ensures var cp := Combine(Hex4(s, i + 2), Hex4(s, i + 8));
      && 0x1_0000 <= cp <= 0x10_FFFF
      && Step(s, i, checkLow) == (Utf8(cp), i + 12) && |Utf8(cp)| == 4
      && SplitPair(cp) == (Hex4(s, i + 2), Hex4(s, i + 8))
  {
    CombineSplitsBack(Hex4(s, i + 2), Hex4(s, i + 8));
  }

  /** A high surrogate followed by a `\u` escape that is not a low surrogate:
      the corrected decoder writes the high surrogate on its own and decodes
      the second escape by itself. */
  lemma BrokenPairDecodesApart(s: seq<Byte>, i: nat)
    requires i < |s| && WellEscapedFrom(s, i) && StartsUnicode(s, i)
    requires IsHighSurrogate(Hex4(s, i + 2)) && StartsUnicode(s, i + 6) && WellEscapedFrom(s, i + 6)
    requires !IsLowSurrogate(Hex4(s, i + 8))
    ensures Step(s, i, true) == (Utf8(Hex4(s, i + 2)), i + 6)
    ensures DecodeFrom(s, i, true) == Utf8(Hex4(s, i + 2)) + DecodeFrom(s, i + 6, true)
  {
  }

  /** The finding: `\uD800\u0041` (a high surrogate, then `A`) decodes as
      written to the three bytes of U+2441, and as intended to the encoding
      of U+D800 followed by `A`. */
  lemma BrokenPairMisread()
    ensures var s: seq<Byte> := ['\\', 'u', 'D', '8', '0', '0', '\\', 'u', '0', '0', '4', '1'];
      && WellEscaped(s)
      && DecodeAsWritten(s) == [0xE2 as char, 0x91 as char, 0x81 as char]
      && Decode(s) == [0xED as char, 0xA0 as char, 0x80 as char, 'A']
  {
    var s: seq<Byte> := ['\\', 'u', 'D', '8', '0', '0', '\\', 'u', '0', '0', '4', '1'];
    assert WellEscapedFrom(s, 12);
    assert WellEscapedFrom(s, 6);
    assert Hex4(s, 2) == 0xD800;
    assert Hex4(s, 8) == 0x41;
    assert Combine(0xD800, 0x41) == 0x2441;
    assert Step(s, 0, false) == (Utf8(0x2441), 12);
    assert Utf8(0x2441) == [0xE2 as char, 0x91 as char, 0x81 as char];
    assert Step(s, 6, true) == (Utf8(0x41), 12);
    assert Step(s, 0, true) == (Utf8(0xD800), 6);
    assert Utf8(0xD800) == [0xED as char, 0xA0 as char, 0x80 as char];
  }

  // Token values

  /** The kinds the scanner never produces, whose branches are not part of
      this model. */
  predicate IsHexOrBinary(k: TokenType)
  {
    k == HexNumber || k == HexLongNumber || k == BinNumber || k == BinLongNumber
  }

  /** The prefix of s before the first byte in `stops` (`strcspn`). */
  function PrefixBefore(s: seq<Byte>, stops: set<Byte>): (p: seq<Byte>)
    ensures p <= s && forall i :: 0 <= i < |p| ==> p[i] !in stops
    ensures |p| < |s| ==> s[|p|] in stops
  {
    if |s| == 0 || s[0] in stops then [] else [s[0]] + PrefixBefore(s[1..], stops)
  }

  /** The text between the quotes of a literal's content, as evidently
      intended: without its first and last byte, and empty when the content
      has no byte between them. */
  function Inner(content: seq<Byte>): (res: seq<Byte>)
    ensures |res| == if |content| >= 2 then |content| - 2 else 0
    ensures |content| >= 2 ==> content == [content[0]] + res + [content[|content| - 1]]
    ensures NoNul(content) ==> NoNul(res)
  {
    if |content| >= 2 then content[1..|content| - 1] else []
  }

  /** The same text as the C code takes it: a copy of the content after the
      opening quote whose last byte is overwritten with NUL. A one-byte
      content leaves an empty copy, and the write then lands before the copy
      (`None`). */
  function InnerAsWritten(content: seq<Byte>): (res: Option<seq<Byte>>)
    requires |content| >= 1
  {
    var copy := content[1..];
    if |copy| == 0 then None else Some(copy[..|copy| - 1])
  }

  /** The two agree wherever the code as written stays inside its copy, and
      it leaves the copy exactly on a content of one byte. */
  lemma InnerAgrees(content: seq<Byte>)
    requires |content| >= 1
    ensures InnerAsWritten(content).None? <==> |content| == 1
    ensures InnerAsWritten(content).Some? ==> InnerAsWritten(content).value == Inner(content)
    ensures |content| == 1 ==> Inner(content) == []
  {
  }

  /** What the decoder needs of a token's content: a C string, long enough for
      the suffix it strips, and for a literal well-formed escapes between the
      quotes. */
  predicate Decodable(kind: TokenType, content: seq<Byte>)
  {
    && NoNul(content) && !IsHexOrBinary(kind)
    && (kind == DecLongNumber ==> |content| >= 1)
    && (kind == CharLiteral || kind == StringLiteral ==> WellEscaped(Inner(content)))
  }

  /** The value of a token: `None` (the C code returns NULL) for kinds without one. */
  function Value(kind: TokenType, content: seq<Byte>): (v: Option<seq<Byte>>)
    requires Decodable(kind, content)
  {
    if kind == Identifier || kind == DecNumber then Some(content)
    else if kind == DecLongNumber then Some(content[..|content| - 1])
    else if kind == FloatNumber || kind == DoubleNumber then Some(PrefixBefore(content, {'f', 'F', 'd', 'D'}))
    else if kind == CharLiteral || kind == StringLiteral then Some(Decode(Inner(content)))
    else None
  }

  /** Identifiers, numbers and literals have a value; every other kind
      has none. */
  lemma ValueKinds(kind: TokenType, content: seq<Byte>)
    requires Decodable(kind, content)
    ensures Value(kind, content).Some? <==>
      (|| kind == Identifier || kind == DecLongNumber || kind == DecNumber || kind == FloatNumber
       || kind == DoubleNumber || kind == CharLiteral || kind == StringLiteral)
  {
  }

  /** The value of a number or identifier is its content, cut at the suffix:
      the last byte of a long, the first of `f`, `F`, `d`, `D` of a floating
      literal. */
  lemma NumberValues(kind: TokenType, content: seq<Byte>)
    requires Decodable(kind, content)
    ensures kind == Identifier || kind == DecNumber ==> Value(kind, content) == Some(content)
    ensures kind == DecLongNumber ==> Value(kind, content).value + [content[|content| - 1]] == content
    ensures kind == FloatNumber || kind == DoubleNumber ==> var v := Value(kind, content).value;
      v <= content && (forall i :: 0 <= i < |v| ==> v[i] !in {'f', 'F', 'd', 'D'})
      && (|v| < |content| ==> content[|v|] in {'f', 'F', 'd', 'D'})
  {
  }

  /** The value of a literal is no longer than the text between its quotes. */
  lemma LiteralValueBound(kind: TokenType, content: seq<Byte>)
    requires Decodable(kind, content) && (kind == CharLiteral || kind == StringLiteral)
    ensures |Value(kind, content).value| <= |Inner(content)|
  {
    DecodeFromShrinks(Inner(content), 0, true);
  }

  /** `token_content_to_value` on the kinds it handles. */
  method TokenContentToValue(kind: TokenType, content: seq<Byte>) returns (v: Option<seq<Byte>>)
    requires Decodable(kind, content)
    ensures v == Value(kind, content)
  {
    if kind == Identifier || kind == DecNumber {
      v := Some(content);
    } else if kind == DecLongNumber {
      v := Some(content[..|content| - 1]);
    } else if kind == FloatNumber || kind == DoubleNumber {
      v := Some(PrefixBefore(content, {'f', 'F', 'd', 'D'}));
    } else if kind == CharLiteral || kind == StringLiteral {
      var res := DecodeLiteral(Inner(content));
      v := Some(res);
    } else {
      v := None;
    }
  }

  /** The literal branch: the text between the quotes is decoded into a
      buffer of four bytes per input byte plus one, with index `bi`. */
  method DecodeLiteral(res: seq<Byte>) returns (out: seq<Byte>)
    requires NoNul(res) && WellEscaped(res)
    ensures out == Decode(res)
  {
    var builder := new Byte[|res| * 4 + 1];
    var bi := 0;
    var i := 0;
    while PeekAt(res, i) != '\0'
      invariant builder.Length == |res| * 4 + 1
      invariant i <= |res| && WellEscapedFrom(res, i)
      invariant 0 <= bi <= i
      invariant builder[..bi] + DecodeFrom(res, i, true) == Decode(res)
      decreases |res| - i
    {
      ghost var step := Step(res, i, true);
      ghost var written := builder[..bi];
      assert DecodeFrom(res, i, true) == step.0 + DecodeFrom(res, step.1, true);
      if res[i] == '\\' && PeekAt(res, i + 1) == 'u' {
        assert StartsUnicode(res, i);
        var codePoint := Hex4(res, i + 2);
        i := i + 5;
        if IsHighSurrogate(codePoint) && PeekAt(res, i + 1) == '\\' && PeekAt(res, i + 2) == 'u' {
          assert StartsUnicode(res, i + 1) && WellEscapedFrom(res, i + 1);
          var low := Hex4(res, i + 3);
          if IsLowSurrogate(low) {
            codePoint := Combine(codePoint, low);
            i := i + 6;
          }
        }
        assert step == (Utf8(codePoint), i + 1);
        bi := PutUtf8(builder, bi, codePoint);
        assert builder[..bi] == written + step.0;
      } else if res[i] == '\\' {
        assert step == ([EscapedByte(res[i + 1])], i + 2);
        i := i + 1;
        builder[bi] := EscapedByte(res[i]);
        assert builder[..bi + 1] == written + [EscapedByte(res[i])];
        bi := bi + 1;
      } else {
        assert step == ([res[i]], i + 1);
        builder[bi] := res[i];
        assert builder[..bi + 1] == written + [res[i]];
        bi := bi + 1;
      }
      i := i + 1;
      assert (builder[..bi], i) == (written + step.0, step.1);
      AppendAssociates(written, step.0, DecodeFrom(res, i, true));
    }
    builder[bi] := '\0';
    out := builder[..bi];
  }

  lemma AppendAssociates(a: seq<Byte>, b: seq<Byte>, c: seq<Byte>)
    ensures (a + b) + c == a + (b + c)
  {
  }

  /** Writes the UTF-8 encoding of the code point at `bi` and gives the index
      after it. */
  method PutUtf8(builder: array<Byte>, bi: nat, cp: nat) returns (bi': nat)
    requires cp < 0x20_0000 && bi + |Utf8(cp)| <= builder.Length
    modifies builder
    ensures bi' == bi + |Utf8(cp)| && builder[..bi'] == old(builder[..bi]) + Utf8(cp)
  {
    if cp <= 0x7F {
      builder[bi] := ByteOf(cp);
      bi' := bi + 1;
    } else if cp <= 0x7FF {
      builder[bi] := ByteOf(0xC0 + (cp / 64) % 32);
      builder[bi + 1] := ByteOf(0x80 + cp % 64);
      bi' := bi + 2;
    } else if cp <= 0xFFFF {
      builder[bi] := ByteOf(0xE0 + (cp / 4096) % 16);
      builder[bi + 1] := ByteOf(0x80 + (cp / 64) % 64);
      builder[bi + 2] := ByteOf(0x80 + cp % 64);
      bi' := bi + 3;
    } else {
      builder[bi] := ByteOf(0xF0 + (cp / 262144) % 8);
      builder[bi + 1] := ByteOf(0x80 + (cp / 4096) % 64);
      builder[bi + 2] := ByteOf(0x80 + (cp / 64) % 64);
      builder[bi + 3] := ByteOf(0x80 + cp % 64);
      bi' := bi + 4;
    }
    assert builder[bi..bi'] == Utf8(cp);
    assert builder[..bi'] == builder[..bi] + builder[bi..bi'];
  }

  // Tokens the tokenizer returns

  /** A string body with valid escapes only is well escaped as the decoder
      reads it, from any earlier start of the slice. */
  lemma {:induction false} StringBodyWellEscaped(src: seq<Byte>, j0: nat, j: nat, k: nat)
    requires j0 <= j <= k <= |src| && StringBody(src, j, k, true)
    ensures WellEscapedFrom(src[j0..k], j - j0)
    decreases k - j
  {
    var s := src[j0..k];
    var i := j - j0;
    if j < k {
      if src[j] == '\\' {
        var e := EscapeScan(src, j, '"');
        EscapeAccepts(src, j, '"');
        StringBodyWellEscaped(src, j0, e.end, k);
        if src[j + 1] == 'u' {
          forall m | i + 2 <= m < i + 6
            ensures IsHexDigit(s[m])
          {
            assert s[m] == PeekAt(src, m + j0);
          }
        }
      } else {
        StringBodyWellEscaped(src, j0, j + 1, k);
      }
    }
  }

  /** The text between the quotes of a character literal is one byte other
      than a backslash, or one valid escape, so it is well escaped. */
  lemma CharInnerWellEscaped(src: seq<Byte>, f: nat)
    requires f < |src| && CharScan(src, f).kind == CharLiteral
    ensures WellEscaped(src[f + 1..CharScan(src, f).end - 1])
  {
    CharScanShape(src, f);
    var s := src[f + 1..CharScan(src, f).end - 1];
    if PeekAt(src, f + 1) == '\\' {
      EscapeAccepts(src, f + 1, '\'');
      if src[f + 2] == 'u' {
        assert WellEscapedFrom(s, 6);
        forall m | 2 <= m < 6
          ensures IsHexDigit(s[m])
        {
          assert s[m] == PeekAt(src, f + 1 + m);
        }
      } else {
        assert WellEscapedFrom(s, 2);
      }
    } else {
      assert WellEscapedFrom(s, 1);
    }
  }

  /** A slice of a C string is a C string. */
  lemma NoNulSlice(s: seq<Byte>, a: nat, b: nat)
    requires NoNul(s) && a <= b <= |s|
    ensures NoNul(s[a..b])
  {
    assert forall i :: 0 <= i < b - a ==> s[a..b][i] == s[a + i];
  }

  /** A token scanned from a source without NUL bytes can be decoded, taken
      scanner by scanner. */
  lemma IdentifierDecodable(src: seq<Byte>, f: nat)
    requires f < |src| && IsIdentifierStart(src[f]) && NoNul(src)
    ensures var r := IdentifierScan(src, f); r.kind != Error ==> Decodable(r.kind, src[f..r.end])
  {
    var r := IdentifierScan(src, f);
    if r.kind != Error {
      NoNulSlice(src, f, r.end);
    }
    IdentifierMaximalMunch(src, f);
  }

  lemma NumberDecodable(src: seq<Byte>, f: nat)
    requires f < |src| && (IsDigit(src[f]) || src[f] == '.') && NoNul(src)
    ensures var r := NumberScan(src, f); r.kind != Error ==> Decodable(r.kind, src[f..r.end])
  {
    var r := NumberScan(src, f);
    if r.kind != Error {
      NoNulSlice(src, f, r.end);
    }
  }

  lemma StringDecodable(src: seq<Byte>, f: nat)
    requires f < |src| && NoNul(src)
    ensures var r := CheckedStringScan(src, f); r.kind != Error ==> Decodable(r.kind, src[f..r.end])
  {
    var r := CheckedStringScan(src, f);
    if r.kind == StringLiteral {
      NoNulSlice(src, f, r.end);
      CheckedStringRestLiteral(src, f, f + 1);
      StringBodyWellEscaped(src, f + 1, f + 1, r.end - 1);
      assert Inner(src[f..r.end]) == src[f + 1..r.end - 1];
    }
  }

  lemma CharDecodable(src: seq<Byte>, f: nat)
    requires f < |src| && NoNul(src)
    ensures var r := CharScan(src, f); r.kind != Error ==> Decodable(r.kind, src[f..r.end])
  {
    var r := CharScan(src, f);
    if r.kind == CharLiteral {
      NoNulSlice(src, f, r.end);
      CharInnerWellEscaped(src, f);
      assert Inner(src[f..r.end]) == src[f + 1..r.end - 1];
    }
  }

  lemma OperatorDecodable(src: seq<Byte>, f: nat, prev: TokenType)
    requires f < |src| && PeekAt(src, f) != '.' && NoNul(src)
    ensures var r := OperatorScan(src, f, prev); r.kind != Error ==> Decodable(r.kind, src[f..r.end])
  {
    var r := OperatorScan(src, f, prev);
    if r.kind != Error {
      NoNulSlice(src, f, r.end);
    }
    OperatorScanKind(src, f, prev);
  }

  /** Whatever the dispatcher scans from a source without NUL bytes can be
      decoded. */
  lemma DispatchDecodable(src: seq<Byte>, f: nat, prev: TokenType)
    requires f < |src| && NoNul(src)
    ensures var r := Dispatch(src, f, prev); r.kind != Error ==> Decodable(r.kind, src[f..r.end])
  {
    var first := src[f];
    if IsIdentifierStart(first) {
      IdentifierDecodable(src, f);
    } else if IsDigit(first) || first == '.' {
      NumberDecodable(src, f);
    } else if first == '"' {
      StringDecodable(src, f);
    } else if first == '\'' {
      CharDecodable(src, f);
    } else {
      OperatorDecodable(src, f, prev);
    }
  }

  /** Every token the tokenizer returns from a source without NUL bytes can
      be decoded: its kind is one the decoder handles, and the text between
      a literal's quotes is well escaped. */
  lemma NextTokensDecodable(src: seq<Byte>, s: State)
    requires NoNul(src) && Next(src, s).0.Some?
    ensures var t := Next(src, s).0.value; Decodable(t.kind, t.content)
  {
    NextScans(src, s);
    var f := SkipFrom(src, s.offset, None).end;
    var r := Dispatch(src, f, s.prev);
    DispatchDecodable(src, f, s.prev);
    CStringWithoutNul(src[f..r.end]);
  }

  /** On the source `"`, NUL, `"` the tokenizer returns a string token whose
      content the NUL cuts to the opening quote alone. The decoder as written
      then writes before its copy; the corrected one gives the empty value. */
  lemma NulCutLiteralAsWritten(prev: TokenType)
    ensures var src: seq<Byte> := ['"', '\0', '"'];
      var t := Next(src, State(0, Frame(0, 1, 1), prev, None)).0;
      && t == Some(Token(StringLiteral, ['"'], 0, 3, 1, 1))
      && InnerAsWritten(t.value.content).None?
      && Decodable(StringLiteral, ['"']) && Value(StringLiteral, ['"']) == Some([])
  {
    var src: seq<Byte> := ['"', '\0', '"'];
    assert !StartsTrivia(src, 0);
    assert SkipFrom(src, 0, None) == Skipped(0, None);
    assert CheckedStringScan(src, 0) == Scan(StringLiteral, 3, None);
    assert CString(src[0..3]) == ['"'];
    assert WellEscapedFrom([], 0);
  }

  /** Its text between the quotes has a `\u` with three hex digits only. */
  lemma ShortUnicodeUndecodable()
    ensures !Decodable(StringLiteral, ['"', '\\', 'u', '1', '2', '3', '"'])
  {
    var src: seq<Byte> := ['"', '\\', 'u', '1', '2', '3', '"'];
    assert Inner(src) == src[1..6];
    assert StartsUnicode(src[1..6], 0);
  }

  /** The controller as written can return a token outside the decoder's
      requirement from a source without NUL bytes: on `"\u123"` it returns
      the whole literal, whose `\u` escape has only three hex digits. */
  lemma NextAsWrittenUndecodable(prev: TokenType)
    ensures var src: seq<Byte> := ['"', '\\', 'u', '1', '2', '3', '"'];
      var t := NextAsWritten(src, State(0, Frame(0, 1, 1), prev, None)).0;
      && NoNul(src)
      && t == Some(Token(StringLiteral, src, 0, 7, 1, 1))
      && !Decodable(StringLiteral, src)
  {
    var src: seq<Byte> := ['"', '\\', 'u', '1', '2', '3', '"'];
    ShortUnicodeAsWritten(src, prev);
    ShortUnicodeUndecodable();
    assert NoNul(src);
  }
}
