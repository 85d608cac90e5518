/** The tokens the parser consumes. They are produced by the lexer, which is
    not part of this model: only their shape matters here. */
module Tokens {

  /** Rust's `i32`, the payload of an integer literal. */
  newtype Int32 = x: int | -0x8000_0000 <= x < 0x8000_0000

  /** The payload of a float literal (Rust's `f32`). The parser only copies
      it, so its arithmetic is irrelevant and it stays opaque. */
  type F

  /** The lexer's token kinds, with the payload of the literal kinds.
      `Other` stands for every kind the parser never dispatches on. */
  datatype TType =
    | Str(text: string)
    | Float(bits: F)
    | Number(num: Int32)
    | Ident(id: string)
    | LParen
    | RParen
    | Def
    | Enum
    | Lambda
    | Other

  /** The discriminant of a token kind: what `std::mem::discriminant`
      compares, i.e. the constructor without its payload. */
  datatype Kind = KStr | KFloat | KNumber | KIdent | KLParen | KRParen | KDef | KEnum | KLambda | KOther

  function KindOf(t: TType): Kind
  {
    match t
    case Str(_) => KStr
    case Float(_) => KFloat
    case Number(_) => KNumber
    case Ident(_) => KIdent
    case LParen => KLParen
    case RParen => KRParen
    case Def => KDef
    case Enum => KEnum
    case Lambda => KLambda
    case Other => KOther
  }

  /** Whether two token kinds are the same variant, whatever their payloads. */
  predicate SameVariant(t: TType, u: TType)
  {
    match (t, u)
    case (Str(_), Str(_)) => true
    case (Float(_), Float(_)) => true
    case (Number(_), Number(_)) => true
    case (Ident(_), Ident(_)) => true
    case (LParen, LParen) => true
    case (RParen, RParen) => true
    case (Def, Def) => true
    case (Enum, Enum) => true
    case (Lambda, Lambda) => true
    case (Other, Other) => true
    case _ => false
  }

  /** Discriminants are equal exactly when the variants are: payloads are
      ignored, and no two variants share a discriminant. */
  lemma KindOfIgnoresPayload(t: TType, u: TType)
    ensures KindOf(t) == KindOf(u) <==> SameVariant(t, u)
  {
  }

  /** A token with its 1-based source position. */
  datatype Token = Token(ttype: TType, line: nat, col: nat)

  /** What the lexer guarantees and the parser relies on: identifiers are
      never empty (the parser reads the first character of enum names). */
  predicate WellFormed(input: seq<Token>)
  {
    forall i :: 0 <= i < |input| && input[i].ttype.Ident? ==> |input[i].ttype.id| > 0
  }
}
