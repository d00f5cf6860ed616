/** The `Parser` of src/parser.rs:62-213: a token list with a cursor that the
    methods advance in place. Every parsing method is proved to leave the
    cursor, and to return, what the matching function of `Grammar` says. */
module Parsing {
  import opened Tokens
  import opened Ast
  import opened Cursor
  import opened Grammar

  class Parser {
    /** The token list handed to `Parser::new`; peekmore's iterator becomes
        this list and the index `pos` of the next unconsumed token. */
    const tokens: seq<Token>
    var pos: nat

    ghost predicate Valid()
      reads this
    {
      pos <= |tokens|
    }

    constructor (tokens: seq<Token>)
      ensures Valid() && this.tokens == tokens && pos == 0
    {
      this.tokens := tokens;
      pos := 0;
    }

    /** `next`: hand out the next token and move past it; None at the end. */
    method Next() returns (t: Option<Token>)
      requires Valid()
      modifies this
      ensures Valid()
      ensures t == PeekNthAt(tokens, old(pos), 0)
      ensures pos == if t.Some? then old(pos) + 1 else old(pos)
    {
      if pos < |tokens| {
        t := Some(tokens[pos]);
        pos := pos + 1;
      } else {
        t := None;
      }
    }

    /** `peek`: the next token, if any, without consuming it. */
    function Peek(): (t: Option<Token>)
      reads this
      ensures t.Some? <==> pos < |tokens|
      ensures t.Some? ==> t.value == tokens[pos]
    {
      PeekNthAt(tokens, pos, 0)
    }

    /** `peek_nth`: the token `idx` places past the cursor, if any. */
    function PeekNth(idx: nat): (t: Option<Token>)
      reads this
      ensures t.Some? <==> pos + idx < |tokens|
      ensures t.Some? ==> t.value == tokens[pos + idx]
    {
      PeekNthAt(tokens, pos, idx)
    }

    /** `window`: `to - from` slots, slot `k` holding what `peek_nth(from + k)`
        shows. */
    function Window(from: nat, to: nat): (w: seq<Option<Token>>)
      requires from <= to
      reads this
      ensures |w| == to - from
      ensures forall k :: 0 <= k < |w| ==> w[k] == PeekNth(from + k)
    {
      WindowSlots(tokens, pos, from, to);
      WindowAt(tokens, pos, from, to)
    }

    /** `consume_elements`: call `next` `count` times, so the cursor moves by
        `count` or up to the end, whichever comes first. */
    method ConsumeElements(count: nat)
      requires Valid()
      modifies this
      ensures Valid()
      ensures pos == Min(old(pos) + count, |tokens|)
    {
      for i := 0 to count
        invariant Valid()
        invariant pos == Min(old(pos) + i, |tokens|)
      {
        var _ := Next();
      }
    }

    /** `parse_assignment`: Ok exactly when the five tokens from the cursor
        form a binding; it moves nothing. */
    function ParseAssignment(): (r: Result<ParserToken>)
      reads this
      ensures r.Ok? <==> AssignmentShape(tokens, pos)
      ensures r.Err? ==> r.error == AssignmentMismatch
    {
      ParseAssignmentAt(tokens, pos)
    }

    /** `parse`: consume one token per round and parse the statement it
        starts; the statements come out in input order. */
    method Parse() returns (r: Result<seq<ParserToken>>)
      requires Valid()
      modifies this
      ensures Valid()
      ensures Step(r, pos) == ParseAt(tokens, old(pos))
    {
      var out := [];
      while true
        invariant Valid()
        invariant ParseAt(tokens, old(pos)) == Prepend(out, ParseAt(tokens, pos))
        decreases |tokens| - pos
      {
        var token := Next();
        if token.None? {
          break;
        }
        var statement := ParseToken(token.value);
        if statement.Err? {
          return Err(statement.error);
        }
        out := out + [statement.value];
      }
      r := Ok(out);
    }

    /** `parse_token`: dispatch on the token `parse` or the body loop has
        just consumed. */
    method ParseToken(first: Token) returns (r: Result<ParserToken>)
      requires Valid()
      modifies this
      ensures Valid()
      ensures Step(r, pos) == ParseTokenAt(tokens, old(pos), first)
    {
      match first
      case FnDeclaration =>
        r := ParseFunction();
      case LetDeclaration =>
        r := ParseAssignment();
      case ConstDeclaration =>
        r := ParseAssignment();
      case If =>
        r := Err(Unimplemented(first));
      case ReturnFn =>
        r := Err(Unimplemented(first));
      case _ =>
        r := Err(UnexpectedToken(first));
    }

    /** The `while let` loop of `parse_func_body`: collect statements up to
        the first `EndBlock` or the end of input. */
    method BodyLoop() returns (r: Result<seq<ParserToken>>)
      requires Valid()
      modifies this
      ensures Valid()
      ensures Step(r, pos) == BodyLoopAt(tokens, old(pos))
    {
      ghost var start := pos;
      var body := [];
      while true
        invariant Valid() && start <= pos
        invariant BodyLoopAt(tokens, start) == Prepend(body, BodyLoopAt(tokens, pos))
        decreases |tokens| - pos
      {
        ghost var here := pos;
        var token := Next();
        if token.None? || token.value == EndBlock {
          assert BodyLoopAt(tokens, here) == Step(Ok([]), pos);
          assert body + [] == body;
          break;
        }
        BodyLoopStep(tokens, here);
        var statement := ParseToken(token.value);
        if statement.Err? {
          return Err(statement.error);
        }
        PrependTwice(body, [statement.value], BodyLoopAt(tokens, pos));
        body := body + [statement.value];
      }
      r := Ok(body);
    }

    /** `parse_func_body`: skip five tokens, run the body loop, then succeed
        only if a token is left. */
    method ParseFuncBody() returns (r: Result<seq<ParserToken>>)
      requires Valid()
      modifies this
      ensures Valid()
      ensures Step(r, pos) == ParseFuncBodyAt(tokens, old(pos))
    {
      ConsumeElements(5);
      r := BodyLoop();
      if r.Ok? && PeekNth(0).None? {
        r := Err(UnterminatedBody);
      }
    }

    /** `parse_function`: match the header window and, had it matched, parse
        the body. As written the window has three slots and the pattern four,
        so only the "fn does not match" arm is reachable. */
    method ParseFunction() returns (r: Result<ParserToken>)
      requires Valid()
      modifies this
      ensures Valid()
      ensures Step(r, pos) == ParseFunctionAt(tokens, old(pos))
    {
      match HeaderName(Window(1, 4))
      case None =>
        r := Err(FunctionMismatch);
    }
  }
}
