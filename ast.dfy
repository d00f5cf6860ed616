/** The syntax tree of src/parser.rs:8-60 and the ways a parse can fail. */
module Ast {
  import opened Tokens

  datatype AssignmentType = Const | Let

  datatype ComparisonKind =
    | Equal
    | GreaterThan
    | GreaterEqualThan
    | LessThan
    | LessEqualThan
    | NotEqual

  datatype ExpressionKind =
    | Identifier(name: string)
    | Comparison(left: ExpressionKind, right: ExpressionKind, cmp: ComparisonKind)
    | IfShorthand(cond: ExpressionKind, consequent: ExpressionKind, otherwise: ExpressionKind)
    | IfCondition(cond: ExpressionKind, body: seq<ParserToken>)
    | StringLiteral(text: string)
    | Number(digits: string)
    | AnonFunction(content: seq<ParserToken>)

  datatype ParserToken =
    | Function(identifier: string, content: seq<ParserToken>)
    | Expr(expr: ExpressionKind)
    | Assignment(identifier: string, assignmentType: AssignmentType, source: ExpressionKind)
    | Block(statements: seq<ParserToken>)

  /** Every way the Rust parser stops: its panics, its unwraps of `Err(())`,
      and the arms left without behaviour. */
  datatype Failure =
    | UnexpectedToken(token: Token)   // panic!("unexpected token")
    | Unimplemented(token: Token)     // the empty `If` and `ReturnFn` arms
    | AssignmentMismatch              // parse_assignment's Err(()), unwrapped by parse_token
    | FunctionMismatch                // panic!("fn does not match")
    | UnterminatedBody                // parse_func_body's Err(()), unwrapped by parse_function

  datatype Result<+T> = Ok(value: T) | Err(error: Failure)

  /** What a parsing routine returns together with where it left the cursor. */
  datatype Step<+T> = Step(result: Result<T>, pos: nat)

  /** Puts `xs` in front of the statements of a successful step; a failed
      step is passed on unchanged. */
  function Prepend(xs: seq<ParserToken>, s: Step<seq<ParserToken>>): (r: Step<seq<ParserToken>>)
    ensures r.pos == s.pos && r.result.Ok? == s.result.Ok?
    ensures r.result.Ok? ==> r.result.value == xs + s.result.value
    ensures r.result.Err? ==> r.result == s.result
  {
    match s.result
    case Ok(rest) => Step(Ok(xs + rest), s.pos)
    case Err(e) => s
  }

  lemma PrependNothing(s: Step<seq<ParserToken>>)
    ensures Prepend([], s) == s
  {
    if s.result.Ok? {
      assert [] + s.result.value == s.result.value;
    }
  }

  lemma PrependTwice(xs: seq<ParserToken>, ys: seq<ParserToken>, s: Step<seq<ParserToken>>)
    ensures Prepend(xs, Prepend(ys, s)) == Prepend(xs + ys, s)
  {
    if s.result.Ok? {
      assert xs + (ys + s.result.value) == (xs + ys) + s.result.value;
    }
  }

  /** The first of `ss` returned ahead of the rest of `ss` returned ahead
      of `c` is all of `ss` returned ahead of `c`. */
  lemma PrependChain(ss: seq<ParserToken>, a: Step<seq<ParserToken>>,
                     b: Step<seq<ParserToken>>, c: Step<seq<ParserToken>>)
    requires ss != [] && a == Prepend([ss[0]], b) && b == Prepend(ss[1..], c)
    ensures a == Prepend(ss, c)
  {
    PrependTwice([ss[0]], ss[1..], c);
    assert [ss[0]] + ss[1..] == ss;
  }

  /** The AST value `parse_assignment` builds from a literal token. */
  function LiteralExpression(t: Token): (e: ExpressionKind)
    requires IsLiteral(t)
  {
    if t.StringLiteral? then ExpressionKind.StringLiteral(t.text) else ExpressionKind.Number(t.digits)
  }
}
