/** Token numbering of the lexer and the one-byte "reserved" code that an
    interned keyword string carries (src/lj_lex.h).

    The TKDEF macro lists the multi-character tokens once; the enum derived
    from it numbers them consecutively from TK_OFS + 1, so that every token
    lies above the range of single-character tokens (which are the
    characters' own byte values).  The first TK_RESERVED tokens are the
    keywords; a keyword string stores `tok - TK_OFS` in its `reserved` byte
    and 0 means "an ordinary name". */
module Tokens {
  import opened Base

  /** The tokens of TKDEF, in the order the macro lists them. */
  datatype Token =
    | And | Break | Do | Else | ElseIf | End | False | For | Function | Fn
    | Goto | If | In | Local | Nil | Not | Or | Repeat | Return | Then
    | True | Until | While | Operator | Using | NameOf
    | Pow | Concat | Dots | Eq | Ge | Le | Ne | Subs | Label
    | Number | Name | String | SubVal | Oper | FldOper | Eof

  /** The enum's first member; tokens start right after it. */
  const TK_OFS: int := 256

  /** Number of entries in TKDEF. */
  const TOKEN_COUNT: nat := 42

  /** Zero-based position of a token in TKDEF. */
  function Position(t: Token): (r: nat)
    ensures r < TOKEN_COUNT
  {
    match t
    case And => 0      case Break => 1    case Do => 2       case Else => 3
    case ElseIf => 4   case End => 5      case False => 6    case For => 7
    case Function => 8 case Fn => 9       case Goto => 10    case If => 11
    case In => 12      case Local => 13   case Nil => 14     case Not => 15
    case Or => 16      case Repeat => 17  case Return => 18  case Then => 19
    case True => 20    case Until => 21   case While => 22   case Operator => 23
    case Using => 24   case NameOf => 25
    case Pow => 26     case Concat => 27  case Dots => 28    case Eq => 29
    case Ge => 30      case Le => 31      case Ne => 32      case Subs => 33
    case Label => 34   case Number => 35  case Name => 36    case String => 37
    case SubVal => 38  case Oper => 39    case FldOper => 40 case Eof => 41
  }

  /** The token at a zero-based position of TKDEF. */
  function TokenAt(i: nat): (t: Token)
    requires i < TOKEN_COUNT
  {
    match i
    case 0 => And      case 1 => Break    case 2 => Do       case 3 => Else
    case 4 => ElseIf   case 5 => End      case 6 => False    case 7 => For
    case 8 => Function case 9 => Fn       case 10 => Goto    case 11 => If
    case 12 => In      case 13 => Local   case 14 => Nil     case 15 => Not
    case 16 => Or      case 17 => Repeat  case 18 => Return  case 19 => Then
    case 20 => True    case 21 => Until   case 22 => While   case 23 => Operator
    case 24 => Using   case 25 => NameOf
    case 26 => Pow     case 27 => Concat  case 28 => Dots    case 29 => Eq
    case 30 => Ge      case 31 => Le      case 32 => Ne      case 33 => Subs
    case 34 => Label   case 35 => Number  case 36 => Name    case 37 => String
    case 38 => SubVal  case 39 => Oper    case 40 => FldOper case _ => Eof
  }

  /** Positions identify tokens: the listing has no duplicates. */
  lemma PositionInjective(a: Token, b: Token)
    requires Position(a) == Position(b)
    ensures a == b
  {
    PositionRoundTrip(a);
    PositionRoundTrip(b);
  }

  lemma PositionRoundTrip(t: Token)
    ensures TokenAt(Position(t)) == t
  {
  }

  /** The integer value `TK_<name>` of a token in the C enum. */
  function Value(t: Token): (v: int)
    ensures TK_OFS < v <= TK_OFS + TOKEN_COUNT
    ensures v > 0xFF
  {
    TK_OFS + 1 + Position(t)
  }

  /** The token whose enum value is `v`, if any: the inverse of Value. */
  function FromValue(v: int): (r: Option<Token>)
    ensures r.Some? <==> TK_OFS < v <= TK_OFS + TOKEN_COUNT
    ensures r.Some? ==> Value(r.value) == v
  {
    if TK_OFS < v <= TK_OFS + TOKEN_COUNT then Some(TokenAt(v - TK_OFS - 1)) else None
  }

  /** Decoding the enum value of a token gives the token back. */
  lemma ValueRoundTrip(t: Token)
    ensures FromValue(Value(t)) == Some(t)
  {
  }

  /** Distinct tokens have distinct enum values. */
  lemma ValueInjective(a: Token, b: Token)
    requires Value(a) == Value(b)
    ensures a == b
  {
    PositionInjective(a, b);
  }

  /** `TK_RESERVED`: the number of keyword tokens. */
  const TK_RESERVED: int := Value(NameOf) - TK_OFS

  /** A token is a keyword when its value is at most `TK_nameof`. */
  predicate IsKeyword(t: Token) {
    Value(t) - TK_OFS <= TK_RESERVED
  }

  /** The enum constants fixed by the TKDEF listing. */
  lemma TokenNumbering()
    ensures Value(And) == 257 && Value(NameOf) == 282 && Value(Eof) == 298
    ensures TK_RESERVED == 26
    ensures forall t :: IsKeyword(t) <==> Position(t) < 26
    ensures IsKeyword(Function) && IsKeyword(End) && IsKeyword(Fn)
    ensures IsKeyword(Operator) && IsKeyword(Using) && IsKeyword(NameOf)
    ensures !IsKeyword(Pow) && !IsKeyword(Name) && !IsKeyword(Eof)
  {
  }

  /** The text TKDEF gives each token: the keyword itself, or the
      operator's symbol, or a placeholder in angle brackets for the
      literal-carrying tokens.  Exactly the keywords are spelled like an
      identifier (starting with a letter), which is why a keyword string
      needs its `reserved` byte to be told apart from a name. */
  function Spelling(t: Token): (s: string)
    ensures |s| > 0
    ensures IsKeyword(t) <==> 'a' <= s[0] <= 'z'
  {
    match t
    case And => "and"           case Break => "break"     case Do => "do"
    case Else => "else"         case ElseIf => "elseif"   case End => "end"
    case False => "false"       case For => "for"         case Function => "function"
    case Fn => "fn"             case Goto => "goto"       case If => "if"
    case In => "in"             case Local => "local"     case Nil => "nil"
    case Not => "not"           case Or => "or"           case Repeat => "repeat"
    case Return => "return"     case Then => "then"       case True => "true"
    case Until => "until"       case While => "while"     case Operator => "operator"
    case Using => "using"       case NameOf => "nameof"
    case Pow => "^^"            case Concat => ".."       case Dots => "..."
    case Eq => "=="             case Ge => ">="           case Le => "<="
    case Ne => "~="             case Subs => "=~"         case Label => "::"
    case Number => "<number>"   case Name => "<name>"     case String => "<string>"
    case SubVal => "<substituted value>"
    case Oper => "<operator>"   case FldOper => "<field operator>"
    case Eof => "<eof>"
  }

  /** `lj_lex_token2reserved`: `(uint8_t)(tok - TK_OFS)`. */
  function Token2Reserved(tok: int): (r: uint8)
    ensures 0 <= tok - TK_OFS < 0x100 ==> r as int + TK_OFS == tok
  {
    ToUint8(tok - TK_OFS)
  }

  /** The token a `reserved` byte stands for: 0 is an ordinary name, any
      other code `c` is the token `TK_OFS + c`.  The codes 1..TK_RESERVED
      are exactly the keywords; larger codes name no keyword. */
  function ReservedToToken(code: uint8): (r: Option<int>)
    ensures r.None? <==> code == 0
    ensures r.Some? ==> Token2Reserved(r.value) == code
    ensures 1 <= code as int <= TK_RESERVED ==>
      && r.Some? && FromValue(r.value).Some?
      && IsKeyword(FromValue(r.value).value)
      && Token2Reserved(Value(FromValue(r.value).value)) == code
  {
    if code == 0 then None else Some(TK_OFS + code as int)
  }

  /** Keyword codes are small and nonzero, the `uint8_t` cast does not
      truncate them, and adding `TK_OFS` back gives the keyword token. */
  lemma KeywordCode(t: Token)
    requires IsKeyword(t)
    ensures 1 <= Token2Reserved(Value(t)) as int <= TK_RESERVED
    ensures Token2Reserved(Value(t)) as int + TK_OFS == Value(t)
    ensures ReservedToToken(Token2Reserved(Value(t))) == Some(Value(t))
  {
  }

  /** Distinct keywords are given distinct reserved codes. */
  lemma KeywordCodeInjective(a: Token, b: Token)
    requires IsKeyword(a) && IsKeyword(b)
    requires Token2Reserved(Value(a)) == Token2Reserved(Value(b))
    ensures a == b
  {
  }
}
