/**
 * Token model of the tokenizer: the token kinds in declaration order, the
 * token and error records, and the display name of each kind.
 */
module Tokens {

  /** One byte of the source buffer, kept as a character below 256. */
  type Byte = c: char | c < 256 as char

  datatype Option<T> = None | Some(value: T)

  /** The token kinds, in the order in which the C enumeration declares them. */
  datatype TokenType =
    | LeftParent | RightParent | LeftBrace | RightBrace | LeftSquare | RightSquare | Comma | Dot | Semi | Colon | Implication
    | Plus | Minus | Multiply | Divide | Modulo
    | And | Or | Not
    | Equals | NotEquals | Greater | Less | GreaterOrEqual | LessOrEqual
    | Assign | PlusAssign | MinusAssign | MultiplyAssign | DivideAssign | ModuloAssign
    | BitAnd | BitOr | BitNot | BitXor | BitShiftLeft | BitShiftRight
    | BitAndAssign | BitOrAssign | BitXorAssign | BitShiftLeftAssign | BitShiftRightAssign
    | UnaryMinus | Increment | Decrement
    | AtSymbol | QuestionMark | Is | As
    | Package | Import | Struct
    | Fn | Return | Val | Var | If | Else | For | Do | While | Continue | Break | This
    | True | False
    | Identifier
    | HexLongNumber | BinLongNumber | DecLongNumber | HexNumber | BinNumber | DecNumber | FloatNumber | DoubleNumber | CharLiteral | StringLiteral
    | Error

  /** The kinds in consecutive groups of the enumeration. Case analyses over
      all kinds are done group by group. */
  const BracketKinds: set<TokenType> := {LeftParent, RightParent, LeftBrace, RightBrace, LeftSquare, RightSquare}
  const SeparatorKinds: set<TokenType> := {Comma, Dot, Semi, Colon, Implication}
  const ArithmeticKinds: set<TokenType> := {Plus, Minus, Multiply, Divide, Modulo, And, Or, Not}
  const ComparisonKinds: set<TokenType> := {Equals, NotEquals, Greater, Less, GreaterOrEqual, LessOrEqual}
  const AssignmentKinds: set<TokenType> := {Assign, PlusAssign, MinusAssign, MultiplyAssign, DivideAssign, ModuloAssign}
  const BitwiseKinds: set<TokenType> := {BitAnd, BitOr, BitNot, BitXor, BitShiftLeft, BitShiftRight}
  const BitwiseAssignmentKinds: set<TokenType> := {BitAndAssign, BitOrAssign, BitXorAssign, BitShiftLeftAssign, BitShiftRightAssign}
  const PrefixKinds: set<TokenType> := {UnaryMinus, Increment, Decrement, AtSymbol, QuestionMark, Is, As}
  const DeclarationKinds: set<TokenType> := {Package, Import, Struct, Fn, Return, Val, Var, If, Else}
  const StatementKinds: set<TokenType> := {For, Do, While, Continue, Break, This, True, False}
  const NumberKinds: set<TokenType> := {HexLongNumber, BinLongNumber, DecLongNumber, HexNumber, BinNumber, DecNumber, FloatNumber, DoubleNumber}
  const TextAndErrorKinds: set<TokenType> := {Identifier, CharLiteral, StringLiteral, Error}

  /** The C enumerator value of a kind: its position in the declaration. */
  function Ordinal(k: TokenType): (n: nat)
    ensures n < 78
  {
    match k
    case LeftParent => 0
    case RightParent => 1
    case LeftBrace => 2
    case RightBrace => 3
    case LeftSquare => 4
    case RightSquare => 5
    case Comma => 6
    case Dot => 7
    case Semi => 8
    case Colon => 9
    case Implication => 10
    case Plus => 11
    case Minus => 12
    case Multiply => 13
    case Divide => 14
    case Modulo => 15
    case And => 16
    case Or => 17
    case Not => 18
    case Equals => 19
    case NotEquals => 20
    case Greater => 21
    case Less => 22
    case GreaterOrEqual => 23
    case LessOrEqual => 24
    case Assign => 25
    case PlusAssign => 26
    case MinusAssign => 27
    case MultiplyAssign => 28
    case DivideAssign => 29
    case ModuloAssign => 30
    case BitAnd => 31
    case BitOr => 32
    case BitNot => 33
    case BitXor => 34
    case BitShiftLeft => 35
    case BitShiftRight => 36
    case BitAndAssign => 37
    case BitOrAssign => 38
    case BitXorAssign => 39
    case BitShiftLeftAssign => 40
    case BitShiftRightAssign => 41
    case UnaryMinus => 42
    case Increment => 43
    case Decrement => 44
    case AtSymbol => 45
    case QuestionMark => 46
    case Is => 47
    case As => 48
    case Package => 49
    case Import => 50
    case Struct => 51
    case Fn => 52
    case Return => 53
    case Val => 54
    case Var => 55
    case If => 56
    case Else => 57
    case For => 58
    case Do => 59
    case While => 60
    case Continue => 61
    case Break => 62
    case This => 63
    case True => 64
    case False => 65
    case Identifier => 66
    case HexLongNumber => 67
    case BinLongNumber => 68
    case DecLongNumber => 69
    case HexNumber => 70
    case BinNumber => 71
    case DecNumber => 72
    case FloatNumber => 73
    case DoubleNumber => 74
    case CharLiteral => 75
    case StringLiteral => 76
    case Error => 77
  }

  /** The kind whose enumerator value is `n`: the inverse of `Ordinal`. */
  function KindAt(n: nat): (k: TokenType)
    requires n < 78
  {
    match n
    case 0 => LeftParent
    case 1 => RightParent
    case 2 => LeftBrace
    case 3 => RightBrace
    case 4 => LeftSquare
    case 5 => RightSquare
    case 6 => Comma
    case 7 => Dot
    case 8 => Semi
    case 9 => Colon
    case 10 => Implication
    case 11 => Plus
    case 12 => Minus
    case 13 => Multiply
    case 14 => Divide
    case 15 => Modulo
    case 16 => And
    case 17 => Or
    case 18 => Not
    case 19 => Equals
    case 20 => NotEquals
    case 21 => Greater
    case 22 => Less
    case 23 => GreaterOrEqual
    case 24 => LessOrEqual
    case 25 => Assign
    case 26 => PlusAssign
    case 27 => MinusAssign
    case 28 => MultiplyAssign
    case 29 => DivideAssign
    case 30 => ModuloAssign
    case 31 => BitAnd
    case 32 => BitOr
    case 33 => BitNot
    case 34 => BitXor
    case 35 => BitShiftLeft
    case 36 => BitShiftRight
    case 37 => BitAndAssign
    case 38 => BitOrAssign
    case 39 => BitXorAssign
    case 40 => BitShiftLeftAssign
    case 41 => BitShiftRightAssign
    case 42 => UnaryMinus
    case 43 => Increment
    case 44 => Decrement
    case 45 => AtSymbol
    case 46 => QuestionMark
    case 47 => Is
    case 48 => As
    case 49 => Package
    case 50 => Import
    case 51 => Struct
    case 52 => Fn
    case 53 => Return
    case 54 => Val
    case 55 => Var
    case 56 => If
    case 57 => Else
    case 58 => For
    case 59 => Do
    case 60 => While
    case 61 => Continue
    case 62 => Break
    case 63 => This
    case 64 => True
    case 65 => False
    case 66 => Identifier
    case 67 => HexLongNumber
    case 68 => BinLongNumber
    case 69 => DecLongNumber
    case 70 => HexNumber
    case 71 => BinNumber
    case 72 => DecNumber
    case 73 => FloatNumber
    case 74 => DoubleNumber
    case 75 => CharLiteral
    case 76 => StringLiteral
    case _ => Error
  }

  /** `KindAtOrdinal` for the Bracket group. */
  lemma KindAtOrdinalBracket(k: TokenType)
    requires k in BracketKinds
    ensures KindAt(Ordinal(k)) == k
  {
    match k
    case LeftParent =>
    case RightParent =>
    case LeftBrace =>
    case RightBrace =>
    case LeftSquare =>
    case RightSquare =>
    case _ => assert false;
  }

  /** `KindAtOrdinal` for the Separator group. */
  lemma KindAtOrdinalSeparator(k: TokenType)
    requires k in SeparatorKinds
    ensures KindAt(Ordinal(k)) == k
  {
    match k
    case Comma =>
    case Dot =>
    case Semi =>
    case Colon =>
    case Implication =>
    case _ => assert false;
  }

  /** `KindAtOrdinal` for the Arithmetic group. */
  lemma KindAtOrdinalArithmetic(k: TokenType)
    requires k in ArithmeticKinds
    ensures KindAt(Ordinal(k)) == k
  {
    match k
    case Plus =>
    case Minus =>
    case Multiply =>
    case Divide =>
    case Modulo =>
    case And =>
    case Or =>
    case Not =>
    case _ => assert false;
  }

  /** `KindAtOrdinal` for the Comparison group. */
  lemma KindAtOrdinalComparison(k: TokenType)
    requires k in ComparisonKinds
    ensures KindAt(Ordinal(k)) == k
  {
    match k
    case Equals =>
    case NotEquals =>
    case Greater =>
    case Less =>
    case GreaterOrEqual =>
    case LessOrEqual =>
    case _ => assert false;
  }

  /** `KindAtOrdinal` for the Assignment group. */
  lemma KindAtOrdinalAssignment(k: TokenType)
    requires k in AssignmentKinds
    ensures KindAt(Ordinal(k)) == k
  {
    match k
    case Assign =>
    case PlusAssign =>
    case MinusAssign =>
    case MultiplyAssign =>
    case DivideAssign =>
    case ModuloAssign =>
    case _ => assert false;
  }

  /** `KindAtOrdinal` for the Bitwise group. */
  lemma KindAtOrdinalBitwise(k: TokenType)
    requires k in BitwiseKinds
    ensures KindAt(Ordinal(k)) == k
  {
    match k
    case BitAnd =>
    case BitOr =>
    case BitNot =>
    case BitXor =>
    case BitShiftLeft =>
    case BitShiftRight =>
    case _ => assert false;
  }

  /** `KindAtOrdinal` for the BitwiseAssignment group. */
  lemma KindAtOrdinalBitwiseAssignment(k: TokenType)
    requires k in BitwiseAssignmentKinds
    ensures KindAt(Ordinal(k)) == k
  {
    match k
    case BitAndAssign =>
    case BitOrAssign =>
    case BitXorAssign =>
    case BitShiftLeftAssign =>
    case BitShiftRightAssign =>
    case _ => assert false;
  }

  /** `KindAtOrdinal` for the Prefix group. */
  lemma KindAtOrdinalPrefix(k: TokenType)
    requires k in PrefixKinds
    ensures KindAt(Ordinal(k)) == k
  {
    match k
    case UnaryMinus =>
    case Increment =>
    case Decrement =>
    case AtSymbol =>
    case QuestionMark =>
    case Is =>
    case As =>
    case _ => assert false;
  }

  /** `KindAtOrdinal` for the Declaration group. */
  lemma KindAtOrdinalDeclaration(k: TokenType)
    requires k in DeclarationKinds
    ensures KindAt(Ordinal(k)) == k
  {
    match k
    case Package =>
    case Import =>
    case Struct =>
    case Fn =>
    case Return =>
    case Val =>
    case Var =>
    case If =>
    case Else =>
    case _ => assert false;
  }

  /** `KindAtOrdinal` for the Statement group. */
  lemma KindAtOrdinalStatement(k: TokenType)
    requires k in StatementKinds
    ensures KindAt(Ordinal(k)) == k
  {
    match k
    case For =>
    case Do =>
    case While =>
    case Continue =>
    case Break =>
    case This =>
    case True =>
    case False =>
    case _ => assert false;
  }

  /** `KindAtOrdinal` for the Number group. */
  lemma KindAtOrdinalNumber(k: TokenType)
    requires k in NumberKinds
    ensures KindAt(Ordinal(k)) == k
  {
    match k
    case HexLongNumber =>
    case BinLongNumber =>
    case DecLongNumber =>
    case HexNumber =>
    case BinNumber =>
    case DecNumber =>
    case FloatNumber =>
    case DoubleNumber =>
    case _ => assert false;
  }

  /** `KindAtOrdinal` for the TextAndError group. */
  lemma KindAtOrdinalTextAndError(k: TokenType)
    requires k in TextAndErrorKinds
    ensures KindAt(Ordinal(k)) == k
  {
    match k
    case Identifier =>
    case CharLiteral =>
    case StringLiteral =>
    case Error =>
    case _ => assert false;
  }

  /** Reading a kind's enumerator value back gives the kind. */
  lemma KindAtOrdinal(k: TokenType)
    ensures KindAt(Ordinal(k)) == k
  {
    match k
    case LeftParent | RightParent | LeftBrace | RightBrace | LeftSquare | RightSquare => KindAtOrdinalBracket(k);
    case Comma | Dot | Semi | Colon | Implication => KindAtOrdinalSeparator(k);
    case Plus | Minus | Multiply | Divide | Modulo | And | Or | Not => KindAtOrdinalArithmetic(k);
    case Equals | NotEquals | Greater | Less | GreaterOrEqual | LessOrEqual => KindAtOrdinalComparison(k);
    case Assign | PlusAssign | MinusAssign | MultiplyAssign | DivideAssign | ModuloAssign => KindAtOrdinalAssignment(k);
    case BitAnd | BitOr | BitNot | BitXor | BitShiftLeft | BitShiftRight => KindAtOrdinalBitwise(k);
    case BitAndAssign | BitOrAssign | BitXorAssign | BitShiftLeftAssign | BitShiftRightAssign => KindAtOrdinalBitwiseAssignment(k);
    case UnaryMinus | Increment | Decrement | AtSymbol | QuestionMark | Is | As => KindAtOrdinalPrefix(k);
    case Package | Import | Struct | Fn | Return | Val | Var | If | Else => KindAtOrdinalDeclaration(k);
    case For | Do | While | Continue | Break | This | True | False => KindAtOrdinalStatement(k);
    case HexLongNumber | BinLongNumber | DecLongNumber | HexNumber | BinNumber | DecNumber | FloatNumber | DoubleNumber => KindAtOrdinalNumber(k);
    case Identifier | CharLiteral | StringLiteral | Error => KindAtOrdinalTextAndError(k);
  }

  /** No two kinds share an enumerator value. */
  lemma OrdinalInjective(a: TokenType, b: TokenType)
    ensures Ordinal(a) == Ordinal(b) ==> a == b
  {
    KindAtOrdinal(a);
    KindAtOrdinal(b);
  }

  /** A position in the source: 0-based byte offset, 1-based line and column. */
  datatype Frame = Frame(offset: int, line: int, column: int)

  /** A token: its kind, its exact source text, and where that text starts. */
  datatype Token = Token(kind: TokenType, content: seq<Byte>, offset: int, length: int, line: int, column: int)

  /** The latched lexical error: a message and the frame it is reported at. */
  datatype TokenizerError = TokenizerError(message: string, frame: Frame)

  /** The display name of a kind. The enumeration is closed, so the
      fallback name "UNKNOWN_TOKEN" of the C switch is never produced. */
  function KindName(k: TokenType): string
  {
    match k
    case LeftParent => "LEFT_PARENT"
    case RightParent => "RIGHT_PARENT"
    case LeftBrace => "LEFT_BRACE"
    case RightBrace => "RIGHT_BRACE"
    case LeftSquare => "LEFT_SQUARE"
    case RightSquare => "RIGHT_SQUARE"
    case Comma => "COMMA"
    case Dot => "DOT"
    case Semi => "SEMI"
    case Colon => "COLON"
    case Implication => "IMPLICATION"
    case Plus => "PLUS"
    case Minus => "MINUS"
    case Multiply => "MULTIPLY"
    case Divide => "DIVIDE"
    case Modulo => "MODULO"
    case And => "AND"
    case Or => "OR"
    case Not => "NOT"
    case Equals => "EQUALS"
    case NotEquals => "NOT_EQUALS"
    case Greater => "GREATER"
    case Less => "LESS"
    case GreaterOrEqual => "GREATER_OR_EQUAL"
    case LessOrEqual => "LESS_OR_EQUAL"
    case Assign => "ASSIGN"
    case PlusAssign => "PLUS_ASSIGN"
    case MinusAssign => "MINUS_ASSIGN"
    case MultiplyAssign => "MULTIPLY_ASSIGN"
    case DivideAssign => "DIVIDE_ASSIGN"
    case ModuloAssign => "MODULO_ASSIGN"
    case BitAnd => "BIT_AND"
    case BitOr => "BIT_OR"
    case BitNot => "BIT_NOT"
    case BitXor => "BIT_XOR"
    case BitShiftLeft => "BIT_SHIFT_LEFT"
    case BitShiftRight => "BIT_SHIFT_RIGHT"
    case BitAndAssign => "BIT_AND_ASSIGN"
    case BitOrAssign => "BIT_OR_ASSIGN"
    case BitXorAssign => "BIT_XOR_ASSIGN"
    case BitShiftLeftAssign => "BIT_SHIFT_LEFT_ASSIGN"
    case BitShiftRightAssign => "BIT_SHIFT_RIGHT_ASSIGN"
    case UnaryMinus => "UNARY_MINUS"
    case Increment => "INCREMENT"
    case Decrement => "DECREMENT"
    case AtSymbol => "AT_SYMBOL"
    case QuestionMark => "QUESTION_MARK"
    case Is => "IS"
    case As => "AS"
    case Package => "PACKAGE"
    case Import => "IMPORT"
    case Struct => "STRUCT"
    case Fn => "FN"
    case Return => "RETURN"
    case Val => "VAL"
    case Var => "VAR"
    case If => "IF"
    case Else => "ELSE"
    case For => "FOR"
    case Do => "DO"
    case While => "WHILE"
    case Continue => "CONTINUE"
    case Break => "BREAK"
    case This => "THIS"
    case True => "TRUE"
    case False => "FALSE"
    case Identifier => "IDENTIFIER"
    case HexLongNumber => "HEX_LONG_NUMBER"
    case BinLongNumber => "BIN_LONG_NUMBER"
    case DecLongNumber => "DEC_LONG_NUMBER"
    case HexNumber => "HEX_NUMBER"
    case BinNumber => "BIN_NUMBER"
    case DecNumber => "DEC_NUMBER"
    case FloatNumber => "FLOAT_NUMBER"
    case DoubleNumber => "DOUBLE_NUMBER"
    case CharLiteral => "CHAR_LITERAL"
    case StringLiteral => "STRING_LITERAL"
    case Error => "ERROR"
  }

  /** The kind whose display name is `name`, if there is one. Names are
      looked up by length and first letter, then compared in full. */
  function KindOfName(name: string): Option<TokenType>
  {
    if |name| == 0 then None
    else match |name|
    case 2 =>
      (match name[0]
      case 'O' =>
        if name == "OR" then Some(Or)
        else None
      case 'I' =>
        if name == "IS" then Some(Is)
        else if name == "IF" then Some(If)
        else None
      case 'A' =>
        if name == "AS" then Some(As)
        else None
      case 'F' =>
        if name == "FN" then Some(Fn)
        else None
      case 'D' =>
        if name == "DO" then Some(Do)
        else None
      case _ => None)
    case 3 =>
      (match name[0]
      case 'D' =>
        if name == "DOT" then Some(Dot)
        else None
      case 'A' =>
        if name == "AND" then Some(And)
        else None
      case 'N' =>
        if name == "NOT" then Some(Not)
        else None
      case 'V' =>
        if name == "VAL" then Some(Val)
        else if name == "VAR" then Some(Var)
        else None
      case 'F' =>
        if name == "FOR" then Some(For)
        else None
      case _ => None)
    case 4 =>
      (match name[0]
      case 'S' =>
        if name == "SEMI" then Some(Semi)
        else None
      case 'P' =>
        if name == "PLUS" then Some(Plus)
        else None
      case 'L' =>
        if name == "LESS" then Some(Less)
        else None
      case 'E' =>
        if name == "ELSE" then Some(Else)
        else None
      case 'T' =>
        if name == "THIS" then Some(This)
        else if name == "TRUE" then Some(True)
        else None
      case _ => None)
    case 5 =>
      (match name[0]
      case 'C' =>
        if name == "COMMA" then Some(Comma)
        else if name == "COLON" then Some(Colon)
        else None
      case 'M' =>
        if name == "MINUS" then Some(Minus)
        else None
      case 'W' =>
        if name == "WHILE" then Some(While)
        else None
      case 'B' =>
        if name == "BREAK" then Some(Break)
        else None
      case 'F' =>
        if name == "FALSE" then Some(False)
        else None
      case 'E' =>
        if name == "ERROR" then Some(Error)
        else None
      case _ => None)
    case 6 =>
      (match name[0]
      case 'D' =>
        if name == "DIVIDE" then Some(Divide)
        else None
      case 'M' =>
        if name == "MODULO" then Some(Modulo)
        else None
      case 'E' =>
        if name == "EQUALS" then Some(Equals)
        else None
      case 'A' =>
        if name == "ASSIGN" then Some(Assign)
        else None
      case 'B' =>
        if name == "BIT_OR" then Some(BitOr)
        else None
      case 'I' =>
        if name == "IMPORT" then Some(Import)
        else None
      case 'S' =>
        if name == "STRUCT" then Some(Struct)
        else None
      case 'R' =>
        if name == "RETURN" then Some(Return)
        else None
      case _ => None)
    case 7 =>
      (match name[0]
      case 'G' =>
        if name == "GREATER" then Some(Greater)
        else None
      case 'B' =>
        if name == "BIT_AND" then Some(BitAnd)
        else if name == "BIT_NOT" then Some(BitNot)
        else if name == "BIT_XOR" then Some(BitXor)
        else None
      case 'P' =>
        if name == "PACKAGE" then Some(Package)
        else None
      case _ => None)
    case 8 =>
      (match name[0]
      case 'M' =>
        if name == "MULTIPLY" then Some(Multiply)
        else None
      case 'C' =>
        if name == "CONTINUE" then Some(Continue)
        else None
      case _ => None)
    case 9 =>
      (match name[0]
      case 'I' =>
        if name == "INCREMENT" then Some(Increment)
        else None
      case 'D' =>
        if name == "DECREMENT" then Some(Decrement)
        else None
      case 'A' =>
        if name == "AT_SYMBOL" then Some(AtSymbol)
        else None
      case _ => None)
    case 10 =>
      (match name[0]
      case 'L' =>
        if name == "LEFT_BRACE" then Some(LeftBrace)
        else None
      case 'N' =>
        if name == "NOT_EQUALS" then Some(NotEquals)
        else None
      case 'I' =>
        if name == "IDENTIFIER" then Some(Identifier)
        else None
      case 'H' =>
        if name == "HEX_NUMBER" then Some(HexNumber)
        else None
      case 'B' =>
        if name == "BIN_NUMBER" then Some(BinNumber)
        else None
      case 'D' =>
        if name == "DEC_NUMBER" then Some(DecNumber)
        else None
      case _ => None)
    case 11 =>
      (match name[0]
      case 'L' =>
        if name == "LEFT_PARENT" then Some(LeftParent)
        else if name == "LEFT_SQUARE" then Some(LeftSquare)
        else None
      case 'R' =>
        if name == "RIGHT_BRACE" then Some(RightBrace)
        else None
      case 'I' =>
        if name == "IMPLICATION" then Some(Implication)
        else None
      case 'P' =>
        if name == "PLUS_ASSIGN" then Some(PlusAssign)
        else None
      case 'U' =>
        if name == "UNARY_MINUS" then Some(UnaryMinus)
        else None
      case _ => None)
    case 12 =>
      (match name[0]
      case 'R' =>
        if name == "RIGHT_PARENT" then Some(RightParent)
        else if name == "RIGHT_SQUARE" then Some(RightSquare)
        else None
      case 'M' =>
        if name == "MINUS_ASSIGN" then Some(MinusAssign)
        else None
      case 'F' =>
        if name == "FLOAT_NUMBER" then Some(FloatNumber)
        else None
      case 'C' =>
        if name == "CHAR_LITERAL" then Some(CharLiteral)
        else None
      case _ => None)
    case 13 =>
      (match name[0]
      case 'L' =>
        if name == "LESS_OR_EQUAL" then Some(LessOrEqual)
        else None
      case 'D' =>
        if name == "DIVIDE_ASSIGN" then Some(DivideAssign)
        else if name == "DOUBLE_NUMBER" then Some(DoubleNumber)
        else None
      case 'M' =>
        if name == "MODULO_ASSIGN" then Some(ModuloAssign)
        else None
      case 'B' =>
        if name == "BIT_OR_ASSIGN" then Some(BitOrAssign)
        else None
      case 'Q' =>
        if name == "QUESTION_MARK" then Some(QuestionMark)
        else None
      case _ => None)
    case 14 =>
      (match name[0]
      case 'B' =>
        if name == "BIT_SHIFT_LEFT" then Some(BitShiftLeft)
        else if name == "BIT_AND_ASSIGN" then Some(BitAndAssign)
        else if name == "BIT_XOR_ASSIGN" then Some(BitXorAssign)
        else None
      case 'S' =>
        if name == "STRING_LITERAL" then Some(StringLiteral)
        else None
      case _ => None)
    case 15 =>
      (match name[0]
      case 'M' =>
        if name == "MULTIPLY_ASSIGN" then Some(MultiplyAssign)
        else None
      case 'B' =>
        if name == "BIT_SHIFT_RIGHT" then Some(BitShiftRight)
        else if name == "BIN_LONG_NUMBER" then Some(BinLongNumber)
        else None
      case 'H' =>
        if name == "HEX_LONG_NUMBER" then Some(HexLongNumber)
        else None
      case 'D' =>
        if name == "DEC_LONG_NUMBER" then Some(DecLongNumber)
        else None
      case _ => None)
    case 16 =>
      (match name[0]
      case 'G' =>
        if name == "GREATER_OR_EQUAL" then Some(GreaterOrEqual)
        else None
      case _ => None)
    case 21 =>
      (match name[0]
      case 'B' =>
        if name == "BIT_SHIFT_LEFT_ASSIGN" then Some(BitShiftLeftAssign)
        else None
      case _ => None)
    case 22 =>
      (match name[0]
      case 'B' =>
        if name == "BIT_SHIFT_RIGHT_ASSIGN" then Some(BitShiftRightAssign)
        else None
      case _ => None)
    case _ => None
  }

  /** Name round trip for brackets. */
  lemma NameRoundTripBracket(k: TokenType)
    requires k in BracketKinds
    ensures KindOfName(KindName(k)) == Some(k)
  {
    match k
    case LeftParent =>
    case RightParent =>
    case LeftBrace =>
    case RightBrace =>
    case LeftSquare =>
    case RightSquare =>
    case _ => assert false;
  }

  /** Name round trip for separators and the arrow. */
  lemma NameRoundTripSeparator(k: TokenType)
    requires k in SeparatorKinds
    ensures KindOfName(KindName(k)) == Some(k)
  {
    match k
    case Comma =>
    case Dot =>
    case Semi =>
    case Colon =>
    case Implication =>
    case _ => assert false;
  }

  /** Name round trip for arithmetic and logical operators. */
  lemma NameRoundTripArithmetic(k: TokenType)
    requires k in ArithmeticKinds
    ensures KindOfName(KindName(k)) == Some(k)
  {
    match k
    case Plus =>
    case Minus =>
    case Multiply =>
    case Divide =>
    case Modulo =>
    case And =>
    case Or =>
    case Not =>
    case _ => assert false;
  }

  /** Name round trip for comparison operators. */
  lemma NameRoundTripComparison(k: TokenType)
    requires k in ComparisonKinds
    ensures KindOfName(KindName(k)) == Some(k)
  {
    match k
    case Equals =>
    case NotEquals =>
    case Greater =>
    case Less =>
    case GreaterOrEqual =>
    case LessOrEqual =>
    case _ => assert false;
  }

  /** Name round trip for plain and arithmetic compound assignment. */
  lemma NameRoundTripAssignment(k: TokenType)
    requires k in AssignmentKinds
    ensures KindOfName(KindName(k)) == Some(k)
  {
    match k
    case Assign =>
    case PlusAssign =>
    case MinusAssign =>
    case MultiplyAssign =>
    case DivideAssign =>
    case ModuloAssign =>
    case _ => assert false;
  }

  /** Name round trip for bitwise operators. */
  lemma NameRoundTripBitwise(k: TokenType)
    requires k in BitwiseKinds
    ensures KindOfName(KindName(k)) == Some(k)
  {
    match k
    case BitAnd =>
    case BitOr =>
    case BitNot =>
    case BitXor =>
    case BitShiftLeft =>
    case BitShiftRight =>
    case _ => assert false;
  }

  /** Name round trip for bitwise compound assignment. */
  lemma NameRoundTripBitwiseAssignment(k: TokenType)
    requires k in BitwiseAssignmentKinds
    ensures KindOfName(KindName(k)) == Some(k)
  {
    match k
    case BitAndAssign =>
    case BitOrAssign =>
    case BitXorAssign =>
    case BitShiftLeftAssign =>
    case BitShiftRightAssign =>
    case _ => assert false;
  }

  /** Name round trip for unary minus, increment, decrement, `@`, `?`, `is`, `as`. */
  lemma NameRoundTripPrefix(k: TokenType)
    requires k in PrefixKinds
    ensures KindOfName(KindName(k)) == Some(k)
  {
    match k
    case UnaryMinus =>
    case Increment =>
    case Decrement =>
    case AtSymbol =>
    case QuestionMark =>
    case Is =>
    case As =>
    case _ => assert false;
  }

  /** Name round trip for `package` to `else`. */
  lemma NameRoundTripDeclaration(k: TokenType)
    requires k in DeclarationKinds
    ensures KindOfName(KindName(k)) == Some(k)
  {
    match k
    case Package =>
    case Import =>
    case Struct =>
    case Fn =>
    case Return =>
    case Val =>
    case Var =>
    case If =>
    case Else =>
    case _ => assert false;
  }

  /** Name round trip for `for` to `false`. */
  lemma NameRoundTripStatement(k: TokenType)
    requires k in StatementKinds
    ensures KindOfName(KindName(k)) == Some(k)
  {
    match k
    case For =>
    case Do =>
    case While =>
    case Continue =>
    case Break =>
    case This =>
    case True =>
    case False =>
    case _ => assert false;
  }

  /** Name round trip for the numeric literal kinds. */
  lemma NameRoundTripNumber(k: TokenType)
    requires k in NumberKinds
    ensures KindOfName(KindName(k)) == Some(k)
  {
    match k
    case HexLongNumber =>
    case BinLongNumber =>
    case DecLongNumber =>
    case HexNumber =>
    case BinNumber =>
    case DecNumber =>
    case FloatNumber =>
    case DoubleNumber =>
    case _ => assert false;
  }

  /** Name round trip for identifiers, char and string literals, and the error marker. */
  lemma NameRoundTripTextAndError(k: TokenType)
    requires k in TextAndErrorKinds
    ensures KindOfName(KindName(k)) == Some(k)
  {
    match k
    case Identifier =>
    case CharLiteral =>
    case StringLiteral =>
    case Error =>
    case _ => assert false;
  }

  /** Display names identify kinds: reading a kind's name back gives the kind,
      so no two kinds share a name and no kind is shown as "UNKNOWN_TOKEN". */
  lemma NameRoundTrip(k: TokenType)
    ensures KindOfName(KindName(k)) == Some(k)
    ensures KindName(k) != "UNKNOWN_TOKEN"
  {
    match k
    case LeftParent | RightParent | LeftBrace | RightBrace | LeftSquare | RightSquare => NameRoundTripBracket(k);
    case Comma | Dot | Semi | Colon | Implication => NameRoundTripSeparator(k);
    case Plus | Minus | Multiply | Divide | Modulo | And | Or | Not => NameRoundTripArithmetic(k);
    case Equals | NotEquals | Greater | Less | GreaterOrEqual | LessOrEqual => NameRoundTripComparison(k);
    case Assign | PlusAssign | MinusAssign | MultiplyAssign | DivideAssign | ModuloAssign => NameRoundTripAssignment(k);
    case BitAnd | BitOr | BitNot | BitXor | BitShiftLeft | BitShiftRight => NameRoundTripBitwise(k);
    case BitAndAssign | BitOrAssign | BitXorAssign | BitShiftLeftAssign | BitShiftRightAssign => NameRoundTripBitwiseAssignment(k);
    case UnaryMinus | Increment | Decrement | AtSymbol | QuestionMark | Is | As => NameRoundTripPrefix(k);
    case Package | Import | Struct | Fn | Return | Val | Var | If | Else => NameRoundTripDeclaration(k);
    case For | Do | While | Continue | Break | This | True | False => NameRoundTripStatement(k);
    case HexLongNumber | BinLongNumber | DecLongNumber | HexNumber | BinNumber | DecNumber | FloatNumber | DoubleNumber => NameRoundTripNumber(k);
    case Identifier | CharLiteral | StringLiteral | Error => NameRoundTripTextAndError(k);
  }

  lemma NamesDistinct(j: TokenType, k: TokenType)
    ensures KindName(j) == KindName(k) <==> j == k
  {
    NameRoundTrip(j);
    NameRoundTrip(k);
  }

  /** The source text of a keyword or operator kind; empty for the kinds
      whose text varies (identifiers, literals) and for the error marker. */
  function Spelling(k: TokenType): string
  {
    match k
    case LeftParent => "(" case RightParent => ")" case LeftBrace => "{" case RightBrace => "}"
    case LeftSquare => "[" case RightSquare => "]" case Comma => "," case Dot => "."
    case Semi => ";" case Colon => ":" case Implication => "->"
    case Plus => "+" case Minus => "-" case Multiply => "*" case Divide => "/" case Modulo => "%"
    case And => "&&" case Or => "||" case Not => "!"
    case Equals => "==" case NotEquals => "!=" case Greater => ">" case Less => "<"
    case GreaterOrEqual => ">=" case LessOrEqual => "<="
    case Assign => "=" case PlusAssign => "+=" case MinusAssign => "-=" case MultiplyAssign => "*="
    case DivideAssign => "/=" case ModuloAssign => "%="
    case BitAnd => "&" case BitOr => "|" case BitNot => "~" case BitXor => "^"
    case BitShiftLeft => "<<" case BitShiftRight => ">>"
    case BitAndAssign => "&=" case BitOrAssign => "|=" case BitXorAssign => "^="
    case BitShiftLeftAssign => "<<=" case BitShiftRightAssign => ">>="
    case UnaryMinus => "-" case Increment => "++" case Decrement => "--"
    case AtSymbol => "@" case QuestionMark => "?"
    case Is => "is" case As => "as" case Package => "package" case Import => "import" case Struct => "struct"
    case Fn => "fn" case Return => "return" case Val => "val" case Var => "var" case If => "if"
    case Else => "else" case For => "for" case Do => "do" case While => "while"
    case Continue => "continue" case Break => "break" case This => "this"
    case True => "true" case False => "false"
    case _ => ""
  }

  /** The kinds the identifier scanner can return besides `Identifier`. */
  predicate IsKeyword(k: TokenType)
  {
    k.Is? || k.As? || k.Package? || k.Import? || k.Struct? || k.Fn? || k.Return? || k.Var? || k.Val?
    || k.If? || k.Else? || k.For? || k.Do? || k.While? || k.Continue? || k.Break? || k.This?
    || k.True? || k.False?
  }
}
