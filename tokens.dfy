/** The tokens the parser of src/parser.rs consumes, read off the exhaustive
    match at src/parser.rs:157-176 (the lexer that would produce them is a stub
    and is not part of this model). */
module Tokens {

  /** The conventional Some/None wrapper; peekmore's windows hold these. */
  datatype Option<+T> = None | Some(value: T)

  datatype Token =
    | FnDeclaration
    | Identifier(name: string)
    | LetDeclaration
    | ConstDeclaration
    | BeginBlock
    | EndBlock
    | EndStatement
    | OpenParen
    | CloseParen
    | If
    | Then
    | Else
    | Equals
    | GreaterThan
    | LessThan
    | ReturnFn
    | Use
    | StringLiteral(text: string)
    | Number(digits: string)
    | Boolean(truth: bool)

  /** The two binding keywords `parse_token` hands to `parse_assignment`. */
  predicate IsDeclaration(t: Token) {
    t == LetDeclaration || t == ConstDeclaration
  }

  /** The right-hand sides `parse_assignment` accepts: a string or a number. */
  predicate IsLiteral(t: Token) {
    t.StringLiteral? || t.Number?
  }
}
