/** The tokens of the older `.zng` front end (zngur-generator/src/parser.rs):
    a smaller set than the current lexer's, with nine keywords. */
module LegacyTokens {
  import StrUtil
  import Wrappers
  import ZngPaths

  datatype Token =
    | ColonColon | Arrow | AngleOpen | AngleClose | BracketOpen | BracketClose
    | ParenOpen | ParenClose | BraceOpen | BraceClose
    | And | Star | Plus | Eq | Question | Comma | Semicolon
    | KwDyn | KwUse | KwMod | KwCrate | KwType | KwTrait | KwFn | KwMut | KwConst
    | Ident(ident: string)
    | Number(n: nat)

  const KEYWORDS: seq<string> := ["dyn", "mod", "type", "trait", "crate", "fn", "mut", "const", "use"]

  /** `Token::ident_or_kw`. */
  function IdentOrKw(s: string): Token {
    match s
    case "dyn" => KwDyn
    case "mod" => KwMod
    case "type" => KwType
    case "trait" => KwTrait
    case "crate" => KwCrate
    case "fn" => KwFn
    case "mut" => KwMut
    case "const" => KwConst
    case "use" => KwUse
    case _ => Ident(s)
  }

  /** `impl Display for Token`. */
  function TokenToString(t: Token): string {
    match t
    case ColonColon => "::"
    case Arrow => "->"
    case AngleOpen => "<"
    case AngleClose => ">"
    case BracketOpen => "["
    case BracketClose => "]"
    case ParenOpen => "("
    case ParenClose => ")"
    case BraceOpen => "{"
    case BraceClose => "}"
    case And => "&"
    case Star => "*"
    case Plus => "+"
    case Eq => "="
    case Question => "?"
    case Comma => ","
    case Semicolon => ";"
    case KwDyn => "dyn"
    case KwUse => "use"
    case KwMod => "mod"
    case KwCrate => "crate"
    case KwType => "type"
    case KwTrait => "trait"
    case KwFn => "fn"
    case KwMut => "mut"
    case KwConst => "const"
    case Ident(i) => i
    case Number(n) => StrUtil.NatToString(n)
  }

  /** Displaying the token of any word gives the word back. */
  lemma IdentOrKwRoundTrip(s: string)
    ensures TokenToString(IdentOrKw(s)) == s
  {
  }

  /** A word lexes as an identifier exactly when it is not one of the nine
      keywords. */
  lemma IdentOrKwKeyword(s: string)
    ensures IdentOrKw(s).Ident? <==> s !in KEYWORDS
  {
  }

  /** Every keyword of this lexer is still a keyword of the current one, so
      a word the current lexer reads as an identifier is one here too. */
  lemma KeywordsKept(s: string)
    ensures s in KEYWORDS ==> s in ZngPaths.KEYWORDS
    ensures ZngPaths.IdentOrKw(s).Ident? ==> IdentOrKw(s).Ident?
  {
    ZngPaths.IdentOrKwKeyword(s);
    IdentOrKwKeyword(s);
  }

  /** A number token displays as its decimal digits, which read back as the
      number. */
  lemma NumberRoundTrip(n: nat, bound: nat)
    requires n < bound
    ensures StrUtil.ParseUnsigned(TokenToString(Number(n)), bound) == Wrappers.Some(n)
  {
    StrUtil.ParseOfNatToString(n, bound);
  }
}
