/** The parser of src/parser.rs as its offsets evidently intend. Every
    production is entered with its keyword already consumed (as `parse` and
    the body loop do), so each window starts at offset 0 on the token after
    that keyword and a match consumes what it matched:
    - an assignment matches `[name, =, literal, ;]` in `window(0, 4)` and
      consumes those four tokens;
    - a function matches `[name, (, ), {]` in `window(0, 4)`, and the body
      skips exactly those four tokens;
    - a body is unterminated when the input runs out inside it, not when the
      input ends right after its closing `EndBlock`.
    Lemmas below prove that printing statements to tokens and parsing them
    back gives the statements again, and that dropping a function's closing
    `EndBlock` gives `UnterminatedBody`. */
module Corrected {
  import opened Tokens
  import opened Ast
  import opened Cursor
  import Grammar

  /** The four tokens that follow a binding keyword in an assignment. */
  predicate AssignmentTail(toks: seq<Token>, p: nat) {
    p + 4 <= |toks| && toks[p].Identifier? && toks[p + 1] == Equals
    && IsLiteral(toks[p + 2]) && toks[p + 3] == EndStatement
  }

  /** `parse_assignment` with the keyword passed in by `parse_token`. */
  function AssignmentAt(toks: seq<Token>, p: nat, keyword: Token): (s: Step<ParserToken>)
    requires IsDeclaration(keyword)
    ensures s.result.Ok? <==> AssignmentTail(toks, p)
    ensures s.result.Err? ==> s == Step(Err(AssignmentMismatch), p)
    ensures s.result.Ok? ==> s.pos == p + 4 && s.result.value.Assignment?
    ensures s.result.Ok? ==> s.result.value.identifier == toks[p].name
    ensures s.result.Ok? ==> (s.result.value.assignmentType == Let <==> keyword == LetDeclaration)
    ensures s.result.Ok? && toks[p + 2].StringLiteral? ==>
              s.result.value.source == ExpressionKind.StringLiteral(toks[p + 2].text)
    ensures s.result.Ok? && toks[p + 2].Number? ==>
              s.result.value.source == ExpressionKind.Number(toks[p + 2].digits)
  {
    WindowSlots(toks, p, 0, 4);
    var w := WindowAt(toks, p, 0, 4);
    if |w| == 4 && w[0].Some? && w[0].value.Identifier? && w[1] == Some(Equals)
       && w[2].Some? && IsLiteral(w[2].value) && w[3] == Some(EndStatement)
    then
      var kind := if keyword == LetDeclaration then Let else Const;
      Step(Ok(Assignment(w[0].value.name, kind, LiteralExpression(w[2].value))), p + 4)
    else
      Step(Err(AssignmentMismatch), p)
  }

  /** `parse_token`; the ranks in the `decreases` clauses order the mutual
      calls `TokenAt > FunctionAt > FuncBodyAt > BodyLoopAt`, and every call
      back into `TokenAt` is made after a token was consumed. */
  function TokenAt(toks: seq<Token>, p: nat, first: Token): (s: Step<ParserToken>)
    requires p <= |toks|
    decreases |toks| - p, 3
    ensures p <= s.pos <= |toks|
  {
    match first
    case FnDeclaration => FunctionAt(toks, p)
    case LetDeclaration => AssignmentAt(toks, p, first)
    case ConstDeclaration => AssignmentAt(toks, p, first)
    case If => Step(Err(Unimplemented(first)), p)
    case ReturnFn => Step(Err(Unimplemented(first)), p)
    case _ => Step(Err(UnexpectedToken(first)), p)
  }

  /** `parse_function` with the header window at offsets 0 to 3. */
  function FunctionAt(toks: seq<Token>, p: nat): (s: Step<ParserToken>)
    requires p <= |toks|
    decreases |toks| - p, 2
    ensures p <= s.pos <= |toks|
  {
    match Grammar.HeaderName(WindowAt(toks, p, 0, 4))
    case None => Step(Err(FunctionMismatch), p)
    case Some(name) =>
      var body := FuncBodyAt(toks, p);
      match body.result
      case Ok(content) => Step(Ok(Function(name, content)), body.pos)
      case Err(e) => Step(Err(e), body.pos)
  }

  /** `parse_func_body` skipping the four header tokens. */
  function FuncBodyAt(toks: seq<Token>, p: nat): (s: Step<seq<ParserToken>>)
    requires p <= |toks|
    decreases |toks| - p, 1
    ensures p <= s.pos <= |toks|
  {
    BodyLoopAt(toks, Grammar.Min(p + 4, |toks|))
  }

  /** The body loop; running out of input inside the body is the failure. */
  function BodyLoopAt(toks: seq<Token>, p: nat): (s: Step<seq<ParserToken>>)
    requires p <= |toks|
    decreases |toks| - p, 0
    ensures p <= s.pos <= |toks|
  {
    if p == |toks| then Step(Err(UnterminatedBody), p)
    else if toks[p] == EndBlock then Step(Ok([]), p + 1)
    else
      var t := TokenAt(toks, p + 1, toks[p]);
      if t.result.Err? then Step(Err(t.result.error), t.pos)
      else Prepend([t.result.value], BodyLoopAt(toks, t.pos))
  }

  /** `parse`, unchanged but for the productions it dispatches to. */
  function ParseAt(toks: seq<Token>, p: nat): (s: Step<seq<ParserToken>>)
    requires p <= |toks|
    decreases |toks| - p
    ensures p <= s.pos <= |toks|
    ensures s.result.Ok? ==> s.pos == |toks|
  {
    if p == |toks| then Step(Ok([]), p)
    else
      var t := TokenAt(toks, p + 1, toks[p]);
      if t.result.Err? then Step(Err(t.result.error), t.pos)
      else Prepend([t.result.value], ParseAt(toks, t.pos))
  }

  /** A successful body was closed by an `EndBlock`, the last token the
      loop consumed. */
  lemma {:induction false} BodyLoopOkIsClosed(toks: seq<Token>, p: nat)
    requires p <= |toks|
    decreases |toks| - p
    ensures var s := BodyLoopAt(toks, p);
      s.result.Ok? ==> p < s.pos && toks[s.pos - 1] == EndBlock
  {
    if p < |toks| && toks[p] != EndBlock {
      var t := TokenAt(toks, p + 1, toks[p]);
      if t.result.Ok? {
        BodyLoopOkIsClosed(toks, t.pos);
      }
    }
  }

  /** `body` is the run of statements whose leading tokens start at `p`, none
      of them an `EndBlock`, the last one ending just before `q`: one
      statement per leading token, in input order. */
  ghost predicate Statements(toks: seq<Token>, p: nat, body: seq<ParserToken>, q: nat)
    decreases |body|
  {
    if body == [] then p == q
    else
      p < |toks| && toks[p] != EndBlock
      && var t := TokenAt(toks, p + 1, toks[p]);
      t.result == Ok(body[0]) && Statements(toks, t.pos, body[1..], q)
  }

  /** A run of statements followed by an `EndBlock` is exactly what the body
      loop returns, and it stops just past that `EndBlock`. */
  lemma {:induction false} StatementsThenEndBlock(toks: seq<Token>, p: nat, body: seq<ParserToken>, q: nat)
    requires p <= |toks|
    requires Statements(toks, p, body, q)
    requires q < |toks| && toks[q] == EndBlock
    decreases |body|
    ensures BodyLoopAt(toks, p) == Step(Ok(body), q + 1)
  {
    if body != [] {
      var t := TokenAt(toks, p + 1, toks[p]);
      StatementsThenEndBlock(toks, t.pos, body[1..], q);
      assert [body[0]] + body[1..] == body;
    }
  }

  /** Conversely, a successful body loop consumed such a run of statements
      and then the `EndBlock` that closes it. */
  lemma {:induction false} BodyLoopOkHasStatements(toks: seq<Token>, p: nat)
    requires p <= |toks|
    decreases |toks| - p
    ensures var s := BodyLoopAt(toks, p);
      s.result.Ok? ==>
        exists q: nat :: Statements(toks, p, s.result.value, q)
          && q < |toks| && toks[q] == EndBlock && s.pos == q + 1
  {
    if p < |toks| && toks[p] == EndBlock {
      assert Statements(toks, p, [], p);
    } else if p < |toks| {
      var t := TokenAt(toks, p + 1, toks[p]);
      if t.result.Ok? {
        var rest := BodyLoopAt(toks, t.pos);
        BodyLoopOkHasStatements(toks, t.pos);
        if rest.result.Ok? {
          var q: nat :| Statements(toks, t.pos, rest.result.value, q)
            && q < |toks| && toks[q] == EndBlock && rest.pos == q + 1;
          var body := [t.result.value] + rest.result.value;
          assert body[1..] == rest.result.value;
          assert Statements(toks, p, body, q);
        }
      }
    }
  }

  // ---------------------------------------------------------------------
  // Printing statements back to tokens, and the round trip

  /** The statements the grammar can produce: literal assignments, and
      functions whose bodies are made of such statements. */
  predicate Printable(s: ParserToken) {
    match s
    case Assignment(_, _, source) => source.StringLiteral? || source.Number?
    case Function(_, content) => AllPrintable(content)
    case _ => false
  }

  predicate AllPrintable(ss: seq<ParserToken>) {
    if ss == [] then true else Printable(ss[0]) && AllPrintable(ss[1..])
  }

  function Keyword(kind: AssignmentType): Token {
    if kind == Let then LetDeclaration else ConstDeclaration
  }

  function LiteralToken(e: ExpressionKind): Token
    requires e.StringLiteral? || e.Number?
  {
    if e.StringLiteral? then Token.StringLiteral(e.text) else Token.Number(e.digits)
  }

  /** The tokens of one statement. */
  function Print(s: ParserToken): (r: seq<Token>)
    requires Printable(s)
    ensures 5 <= |r| && r[0] != EndBlock
  {
    match s
    case Assignment(name, kind, source) =>
      [Keyword(kind), Token.Identifier(name), Equals, LiteralToken(source), EndStatement]
    case Function(name, content) =>
      [FnDeclaration, Token.Identifier(name), OpenParen, CloseParen, BeginBlock]
      + PrintAll(content) + [EndBlock]
  }

  function PrintAll(ss: seq<ParserToken>): seq<Token>
    requires AllPrintable(ss)
  {
    if ss == [] then [] else Print(ss[0]) + PrintAll(ss[1..])
  }

  /** The header `[name, (, ), {]` at `p` is recognised in `window(0, 4)`. */
  lemma HeaderAt(toks: seq<Token>, p: nat, name: string)
    requires At(toks, p, [Token.Identifier(name), OpenParen, CloseParen, BeginBlock])
    ensures Grammar.HeaderName(WindowAt(toks, p, 0, 4)) == Some(name)
  {
    var h := [Token.Identifier(name), OpenParen, CloseParen, BeginBlock];
    var w := WindowAt(toks, p, 0, 4);
    WindowSlots(toks, p, 0, 4);
    AtIndex(toks, p, h, 0);
    AtIndex(toks, p, h, 1);
    AtIndex(toks, p, h, 2);
    AtIndex(toks, p, h, 3);
    assert w[0] == Some(h[0]) && w[1] == Some(h[1]) && w[2] == Some(h[2]) && w[3] == Some(h[3]);
  }

  /** A printed assignment parses back to itself. */
  lemma AssignmentRoundTrip(toks: seq<Token>, p: nat, s: ParserToken)
    requires s.Assignment? && Printable(s) && At(toks, p, Print(s))
    ensures TokenAt(toks, p + 1, toks[p]) == Step(Ok(s), p + |Print(s)|)
  {
    var x := Print(s);
    AtIndex(toks, p, x, 0);
    AtIndex(toks, p, x, 1);
    AtIndex(toks, p, x, 2);
    AtIndex(toks, p, x, 3);
    AtIndex(toks, p, x, 4);
    assert AssignmentTail(toks, p + 1);
    assert LiteralExpression(toks[p + 3]) == s.source;
  }

  /** A function token, a header naming `name` and a run of statements up
      to an `EndBlock` at `e` parse as that function, up to just past `e`. */
  lemma FunctionParsed(toks: seq<Token>, p: nat, name: string, content: seq<ParserToken>, e: nat)
    requires p + 5 <= e < |toks| && toks[p] == FnDeclaration && toks[e] == EndBlock
    requires Grammar.HeaderName(WindowAt(toks, p + 1, 0, 4)) == Some(name)
    requires Statements(toks, p + 5, content, e)
    ensures TokenAt(toks, p + 1, toks[p]) == Step(Ok(Function(name, content)), e + 1)
  {
    StatementsThenEndBlock(toks, p + 5, content, e);
    assert FuncBodyAt(toks, p + 1) == Step(Ok(content), e + 1);
    assert FunctionAt(toks, p + 1) == Step(Ok(Function(name, content)), e + 1);
  }

  /** The tokens of a printed function: `fn`, the header, the printed body
      and the closing `EndBlock`. */
  lemma FunctionPrinted(toks: seq<Token>, p: nat, name: string, content: seq<ParserToken>)
    requires AllPrintable(content) && At(toks, p, Print(Function(name, content)))
    ensures |Print(Function(name, content))| == |PrintAll(content)| + 6
    ensures p + 5 + |PrintAll(content)| < |toks| && toks[p] == FnDeclaration
    ensures At(toks, p + 1, [Token.Identifier(name), OpenParen, CloseParen, BeginBlock])
    ensures At(toks, p + 5, PrintAll(content))
    ensures toks[p + 5 + |PrintAll(content)|] == EndBlock
  {
    var header := [FnDeclaration, Token.Identifier(name), OpenParen, CloseParen, BeginBlock];
    var body := PrintAll(content);
    assert Print(Function(name, content)) == header + body + [EndBlock];
    AtSplit(toks, p, header + body, [EndBlock]);
    AtSplit(toks, p, header, body);
    AtSplit(toks, p, [FnDeclaration], header[1..]);
    AtIndex(toks, p, header, 0);
    AtIndex(toks, p + 5 + |body|, [EndBlock], 0);
  }

  /** A printed function parses back to itself: the header is recognised,
      the body loop returns the printed body and stops past its `EndBlock`. */
  lemma {:induction false} FunctionRoundTrip(toks: seq<Token>, p: nat, name: string, content: seq<ParserToken>)
    requires AllPrintable(content) && At(toks, p, Print(Function(name, content)))
    decreases Function(name, content), 1
    ensures TokenAt(toks, p + 1, toks[p]) == Step(Ok(Function(name, content)), p + |Print(Function(name, content))|)
  {
    FunctionPrinted(toks, p, name, content);
    HeaderAt(toks, p + 1, name);
    PrintedStatements(toks, p + 5, content);
    FunctionParsed(toks, p, name, content, p + 5 + |PrintAll(content)|);
  }

  /** One printed statement parses back to itself, consuming exactly its
      tokens. */
  lemma {:induction false} StatementRoundTrip(toks: seq<Token>, p: nat, s: ParserToken)
    requires Printable(s) && At(toks, p, Print(s))
    decreases s, 2
    ensures TokenAt(toks, p + 1, toks[p]) == Step(Ok(s), p + |Print(s)|)
  {
    match s
    case Assignment(_, _, _) =>
      AssignmentRoundTrip(toks, p, s);
    case Function(name, content) =>
      FunctionRoundTrip(toks, p, name, content);
  }

  /** The printed form of a non-empty run of statements is the first
      statement's tokens followed by the rest's. */
  lemma PrintAllCons(ss: seq<ParserToken>)
    requires ss != [] && AllPrintable(ss)
    ensures Printable(ss[0]) && AllPrintable(ss[1..])
    ensures PrintAll(ss) == Print(ss[0]) + PrintAll(ss[1..])
    ensures |PrintAll(ss)| == |Print(ss[0])| + |PrintAll(ss[1..])|
  {
  }

  /** A printable first statement and printable rest print as the first
      statement's tokens followed by the rest's. */
  lemma PrintAllJoin(ss: seq<ParserToken>, x: ParserToken, rest: seq<ParserToken>)
    requires ss != [] && x == ss[0] && rest == ss[1..] && Printable(x) && AllPrintable(rest)
    ensures AllPrintable(ss) && PrintAll(ss) == Print(x) + PrintAll(rest)
  {
  }

  /** The empty run prints as nothing. `ss` is a parameter equal to `[]`,
      rather than `[]` written out, so that callers can pass the exact term
      they hold and the solver matches it without a rewriting step. */
  lemma PrintAllNil(ss: seq<ParserToken>)
    requires ss == []
    ensures AllPrintable(ss) && PrintAll(ss) == []
  {
  }

  /** One round of the body loop on a statement that parses. */
  lemma BodyLoopStepOk(toks: seq<Token>, p: nat, t: Step<ParserToken>)
    requires p < |toks| && toks[p] != EndBlock
    requires t == TokenAt(toks, p + 1, toks[p]) && t.result.Ok?
    ensures BodyLoopAt(toks, p) == Prepend([t.result.value], BodyLoopAt(toks, t.pos))
  {
  }

  /** One round of `parse` on a statement that parses. */
  lemma ParseStepOk(toks: seq<Token>, p: nat, t: Step<ParserToken>)
    requires p < |toks|
    requires t == TokenAt(toks, p + 1, toks[p]) && t.result.Ok?
    ensures ParseAt(toks, p) == Prepend([t.result.value], ParseAt(toks, t.pos))
  {
  }

  /** One link of a run of statements: a first statement `x` that parses
      from `p` to `q`, then a run `rest` from `q` to `e`. */
  lemma StatementsCons(toks: seq<Token>, p: nat, ss: seq<ParserToken>, x: ParserToken,
                       rest: seq<ParserToken>, q: nat, e: nat)
    requires ss != [] && x == ss[0] && rest == ss[1..]
    requires p < |toks| && toks[p] != EndBlock
    requires TokenAt(toks, p + 1, toks[p]) == Step(Ok(x), q)
    requires Statements(toks, q, rest, e)
    ensures Statements(toks, p, ss, e)
  {
  }

  /** A run of statements ending at `q` ends at any `e` equal to `q`. The
      equality is a precondition, not a substitution, so that callers can
      name both end positions as the terms they hold: the solver then does
      not have to unfold `Statements` to see that the two agree. */
  lemma StatementsEnd(toks: seq<Token>, p: nat, ss: seq<ParserToken>, q: nat, e: nat)
    requires q == e
    ensures Statements(toks, p, ss, q) ==> Statements(toks, p, ss, e)
  {
  }

  /** Statements printed at `p` are the first one, `x`, printed at `p`,
      followed by the rest printed after it. */
  lemma PrintedSplit(toks: seq<Token>, p: nat, ss: seq<ParserToken>, x: ParserToken, rest: seq<ParserToken>)
    requires ss != [] && x == ss[0] && rest == ss[1..]
    requires AllPrintable(ss) && At(toks, p, PrintAll(ss))
    ensures Printable(x) && At(toks, p, Print(x))
    ensures AllPrintable(rest) && At(toks, p + |Print(x)|, PrintAll(rest))
    ensures |PrintAll(ss)| == |Print(x)| + |PrintAll(rest)|
    ensures p < |toks| && toks[p] != EndBlock
  {
    PrintAllCons(ss);
    AtConcat(toks, p, Print(x), PrintAll(rest));
  }

  /** Printed statements are a run of statements that ends where their
      tokens end. */
  lemma {:induction false} PrintedStatements(toks: seq<Token>, p: nat, ss: seq<ParserToken>)
    requires AllPrintable(ss) && At(toks, p, PrintAll(ss))
    decreases ss, 2
    ensures Statements(toks, p, ss, p + |PrintAll(ss)|)
  {
    if ss == [] {
      PrintAllNil(ss);
    } else {
      var x, rest := ss[0], ss[1..];
      PrintedSplit(toks, p, ss, x, rest);
      PrintedFirst(toks, p, ss, x, rest);
      StatementsEnd(toks, p, ss, p + |Print(x)| + |PrintAll(rest)|, p + |PrintAll(ss)|);
    }
  }

  /** The first printed statement `x` parses back to itself, and the rest
      printed after it form a run of statements. */
  lemma {:induction false} PrintedFirst(toks: seq<Token>, p: nat, ss: seq<ParserToken>, x: ParserToken,
                                        rest: seq<ParserToken>)
    requires ss != [] && x == ss[0] && rest == ss[1..]
    requires Printable(x) && At(toks, p, Print(x))
    requires AllPrintable(rest) && At(toks, p + |Print(x)|, PrintAll(rest))
    requires p < |toks| && toks[p] != EndBlock
    decreases ss, 1
    ensures Statements(toks, p, ss, p + |Print(x)| + |PrintAll(rest)|)
  {
    StatementRoundTrip(toks, p, x);
    PrintedCons(toks, p, ss, x, rest, p + |Print(x)|);
  }

  /** The step of `PrintedStatements`: the first statement `x` parsed from
      `p` to `q`, then the rest printed from `q` on. */
  lemma {:induction false} PrintedCons(toks: seq<Token>, p: nat, ss: seq<ParserToken>, x: ParserToken,
                                       rest: seq<ParserToken>, q: nat)
    requires ss != [] && x == ss[0] && rest == ss[1..]
    requires p < |toks| && toks[p] != EndBlock
    requires TokenAt(toks, p + 1, toks[p]) == Step(Ok(x), q)
    requires AllPrintable(rest) && At(toks, q, PrintAll(rest))
    decreases ss, 0
    ensures Statements(toks, p, ss, q + |PrintAll(rest)|)
  {
    PrintedStatements(toks, q, rest);
    StatementsCons(toks, p, ss, x, rest, q, q + |PrintAll(rest)|);
  }

  /** On a run of statements the body loop returns them and carries on from
      where the run ends. */
  lemma {:induction false} StatementsLoop(toks: seq<Token>, p: nat, body: seq<ParserToken>, q: nat)
    requires p <= |toks| && q <= |toks|
    requires Statements(toks, p, body, q)
    decreases |body|
    ensures BodyLoopAt(toks, p) == Prepend(body, BodyLoopAt(toks, q))
  {
    if body == [] {
      PrependNothing(BodyLoopAt(toks, p));
    } else {
      var t := TokenAt(toks, p + 1, toks[p]);
      StatementsLoop(toks, t.pos, body[1..], q);
      BodyLoopStepOk(toks, p, t);
      PrependChain(body, BodyLoopAt(toks, p), BodyLoopAt(toks, t.pos), BodyLoopAt(toks, q));
    }
  }

  /** On a run of statements `parse` returns them and carries on from where
      the run ends. */
  lemma {:induction false} StatementsParse(toks: seq<Token>, p: nat, body: seq<ParserToken>, q: nat)
    requires p <= |toks| && q <= |toks|
    requires Statements(toks, p, body, q)
    decreases |body|
    ensures ParseAt(toks, p) == Prepend(body, ParseAt(toks, q))
  {
    if body == [] {
      PrependNothing(ParseAt(toks, p));
    } else {
      var t := TokenAt(toks, p + 1, toks[p]);
      StatementsParse(toks, t.pos, body[1..], q);
      ParseStepOk(toks, p, t);
      PrependChain(body, ParseAt(toks, p), ParseAt(toks, t.pos), ParseAt(toks, q));
    }
  }

  /** Printed statements make `parse` return them and carry on with what
      follows them. */
  lemma ParseRoundTripAt(toks: seq<Token>, p: nat, ss: seq<ParserToken>)
    requires AllPrintable(ss) && At(toks, p, PrintAll(ss))
    ensures ParseAt(toks, p) == Prepend(ss, ParseAt(toks, p + |PrintAll(ss)|))
  {
    PrintedStatements(toks, p, ss);
    StatementsParse(toks, p, ss, p + |PrintAll(ss)|);
  }

  /** Parsing the printed form of a program gives the program back. */
  lemma PrintThenParse(ss: seq<ParserToken>)
    requires AllPrintable(ss)
    ensures ParseAt(PrintAll(ss), 0) == Step(Ok(ss), |PrintAll(ss)|)
  {
    var toks := PrintAll(ss);
    assert toks[0..|toks|] == toks;
    ParseRoundTripAt(toks, 0, ss);
    assert ParseAt(toks, |toks|) == Step(Ok([]), |toks|);
    assert ss + [] == ss;
  }

  /** A function token and a header naming `name`, followed by a run of
      statements that reaches the end of the input, make `parse` report an
      unterminated body. */
  lemma FunctionUnterminated(toks: seq<Token>, name: string, content: seq<ParserToken>)
    requires 5 <= |toks| && toks[0] == FnDeclaration
    requires Grammar.HeaderName(WindowAt(toks, 1, 0, 4)) == Some(name)
    requires Statements(toks, 5, content, |toks|)
    ensures ParseAt(toks, 0) == Step(Err(UnterminatedBody), |toks|)
  {
    StatementsLoop(toks, 5, content, |toks|);
    assert FuncBodyAt(toks, 1) == Step(Err(UnterminatedBody), |toks|);
    assert FunctionAt(toks, 1) == Step(Err(UnterminatedBody), |toks|);
  }

  /** The tokens of a printed function without its closing `EndBlock`. */
  lemma FunctionPrefix(name: string, content: seq<ParserToken>, toks: seq<Token>)
    requires AllPrintable(content)
    requires toks == Print(Function(name, content))[..|Print(Function(name, content))| - 1]
    ensures |toks| == |PrintAll(content)| + 5 && toks[0] == FnDeclaration
    ensures At(toks, 1, [Token.Identifier(name), OpenParen, CloseParen, BeginBlock])
    ensures At(toks, 5, PrintAll(content))
  {
    var header := [FnDeclaration, Token.Identifier(name), OpenParen, CloseParen, BeginBlock];
    var body := PrintAll(content);
    assert Print(Function(name, content)) == header + body + [EndBlock];
    assert toks == header + body;
    assert toks[0..|toks|] == toks;
    AtSplit(toks, 0, header, body);
    AtSplit(toks, 0, [FnDeclaration], header[1..]);
    AtIndex(toks, 0, header, 0);
  }

  /** A function whose closing `EndBlock` is removed from the end of the
      input is reported as an unterminated body, never as anything else. */
  lemma MissingEndBlockIsUnterminated(name: string, content: seq<ParserToken>)
    requires AllPrintable(content)
    ensures var toks := Print(Function(name, content));
      ParseAt(toks[..|toks| - 1], 0) == Step(Err(UnterminatedBody), |toks| - 1)
  {
    var toks := Print(Function(name, content))[..|Print(Function(name, content))| - 1];
    FunctionPrefix(name, content, toks);
    HeaderAt(toks, 1, name);
    PrintedStatements(toks, 5, content);
    FunctionUnterminated(toks, name, content);
  }

  // ---------------------------------------------------------------------
  // The dispatch's failures, and the converse of the round trip

  /** The corrected dispatch: a binding keyword goes to `parse_assignment`
      and `fn` to `parse_function`, which fails with "fn does not match",
      cursor unmoved, when no header follows; `if` and `return` are
      unimplemented and every other token is unexpected, cursor unmoved. */
  lemma TokenDispatch(toks: seq<Token>, p: nat, first: Token)
    requires p <= |toks|
    ensures IsDeclaration(first) ==> TokenAt(toks, p, first) == AssignmentAt(toks, p, first)
    ensures first == FnDeclaration ==> TokenAt(toks, p, first) == FunctionAt(toks, p)
    ensures first == FnDeclaration
              && (forall n :: !At(toks, p, [Token.Identifier(n), OpenParen, CloseParen, BeginBlock])) ==>
              TokenAt(toks, p, first) == Step(Err(FunctionMismatch), p)
    ensures first == If || first == ReturnFn ==> TokenAt(toks, p, first) == Step(Err(Unimplemented(first)), p)
    ensures !IsDeclaration(first) && first != FnDeclaration && first != If && first != ReturnFn ==>
              TokenAt(toks, p, first) == Step(Err(UnexpectedToken(first)), p)
  {
    var header := Grammar.HeaderName(WindowAt(toks, p, 0, 4));
    if first == FnDeclaration && header.Some? {
      Grammar.HeaderWindow(toks, p, 0, 4, header.value);
    }
  }

  /** A binding the dispatch accepts is the printed form of what it
      returned. */
  lemma AssignmentIsPrinted(toks: seq<Token>, p: nat, r: ParserToken)
    requires p < |toks| && IsDeclaration(toks[p]) && AssignmentTail(toks, p + 1)
    requires r == AssignmentAt(toks, p + 1, toks[p]).result.value
    ensures Printable(r) && At(toks, p, Print(r)) && |Print(r)| == 5
  {
    assert Keyword(r.assignmentType) == toks[p];
    assert LiteralToken(r.source) == toks[p + 3];
    assert toks[p..p + 5] == [toks[p], toks[p + 1], toks[p + 2], toks[p + 3], toks[p + 4]];
  }

  /** `fn`, a header naming `name` and a body printed with its `EndBlock`
      are the printed function. */
  lemma FunctionIsPrinted(toks: seq<Token>, p: nat, name: string, content: seq<ParserToken>)
    requires p < |toks| && toks[p] == FnDeclaration
    requires At(toks, p + 1, [Token.Identifier(name), OpenParen, CloseParen, BeginBlock])
    requires AllPrintable(content) && At(toks, p + 5, PrintAll(content) + [EndBlock])
    ensures Printable(Function(name, content)) && At(toks, p, Print(Function(name, content)))
    ensures |Print(Function(name, content))| == |PrintAll(content)| + 6
  {
    var header := [FnDeclaration, Token.Identifier(name), OpenParen, CloseParen, BeginBlock];
    assert toks[p..p + 1] == [FnDeclaration];
    assert header == [FnDeclaration] + [Token.Identifier(name), OpenParen, CloseParen, BeginBlock];
    AtJoin(toks, p, [FnDeclaration], [Token.Identifier(name), OpenParen, CloseParen, BeginBlock]);
    AtJoin(toks, p, header, PrintAll(content) + [EndBlock]);
    assert Print(Function(name, content)) == header + (PrintAll(content) + [EndBlock]);
  }

  /** The first statement `x` printed at `p` and the rest printed after it,
      followed by `tail`, are all of `ss` printed at `p`, followed by `tail`. */
  lemma PrintedJoin(toks: seq<Token>, p: nat, ss: seq<ParserToken>, x: ParserToken,
                    rest: seq<ParserToken>, tail: seq<Token>)
    requires ss != [] && x == ss[0] && rest == ss[1..] && Printable(x) && AllPrintable(rest)
    requires At(toks, p, Print(x)) && At(toks, p + |Print(x)|, PrintAll(rest) + tail)
    ensures AllPrintable(ss) && At(toks, p, PrintAll(ss) + tail)
    ensures |PrintAll(ss)| == |Print(x)| + |PrintAll(rest)|
  {
    PrintAllJoin(ss, x, rest);
    AtJoinAssoc(toks, p, Print(x), PrintAll(rest), tail);
  }

  /** One successful round of the body loop or of `parse`, read on tokens:
      if the statement `t` returned was printed at `p` and the statements
      `r` returned after it were printed next, followed by `tail`, then the
      statements `s` of the round were printed at `p`, followed by `tail`. */
  lemma PrintedStep(toks: seq<Token>, p: nat, s: Step<seq<ParserToken>>, t: Step<ParserToken>,
                    r: Step<seq<ParserToken>>, tail: seq<Token>)
    requires t.result.Ok? && r.result.Ok? && s == Prepend([t.result.value], r)
    requires Printable(t.result.value) && At(toks, p, Print(t.result.value))
    requires t.pos == p + |Print(t.result.value)|
    requires AllPrintable(r.result.value) && At(toks, t.pos, PrintAll(r.result.value) + tail)
    requires r.pos == t.pos + |PrintAll(r.result.value)| + |tail|
    ensures s.result.Ok? && AllPrintable(s.result.value) && At(toks, p, PrintAll(s.result.value) + tail)
    ensures s.pos == p + |PrintAll(s.result.value)| + |tail|
  {
    var x, rest, ss := t.result.value, r.result.value, s.result.value;
    assert ss == [x] + rest;
    assert ss != [] && ss[0] == x && ss[1..] == rest;
    PrintedJoin(toks, p, ss, x, rest, tail);
  }

  /** Conversely to `StatementRoundTrip`: a statement the dispatch accepts
      is printable, and the tokens it consumed are exactly its printed
      form. */
  lemma {:induction false} TokenIsPrinted(toks: seq<Token>, p: nat)
    requires p < |toks|
    decreases |toks| - p, 0
    ensures var t := TokenAt(toks, p + 1, toks[p]);
      t.result.Ok? ==> Printable(t.result.value) && At(toks, p, Print(t.result.value))
                       && t.pos == p + |Print(t.result.value)|
  {
    var t := TokenAt(toks, p + 1, toks[p]);
    if t.result.Ok? {
      if IsDeclaration(toks[p]) {
        AssignmentIsPrinted(toks, p, t.result.value);
      } else {
        var name := Grammar.HeaderName(WindowAt(toks, p + 1, 0, 4)).value;
        Grammar.HeaderWindow(toks, p + 1, 0, 4, name);
        var body := BodyLoopAt(toks, p + 5);
        assert FuncBodyAt(toks, p + 1) == body;
        LoopIsPrinted(toks, p + 5);
        FunctionIsPrinted(toks, p, name, body.result.value);
      }
    }
  }

  /** A successful body loop consumed exactly the printed form of the
      statements it returned, followed by the closing `EndBlock`. */
  lemma {:induction false} LoopIsPrinted(toks: seq<Token>, p: nat)
    requires p <= |toks|
    decreases |toks| - p, 1
    ensures var s := BodyLoopAt(toks, p);
      s.result.Ok? ==> AllPrintable(s.result.value) && At(toks, p, PrintAll(s.result.value) + [EndBlock])
                       && s.pos == p + |PrintAll(s.result.value)| + 1
  {
    if p < |toks| {
      if toks[p] == EndBlock {
        assert toks[p..p + 1] == [EndBlock];
        assert PrintAll([]) + [EndBlock] == [EndBlock];
      } else {
        var t := TokenAt(toks, p + 1, toks[p]);
        if t.result.Ok? {
          TokenIsPrinted(toks, p);
          LoopIsPrinted(toks, t.pos);
          var rest := BodyLoopAt(toks, t.pos);
          if rest.result.Ok? {
            BodyLoopStepOk(toks, p, t);
            PrintedStep(toks, p, BodyLoopAt(toks, p), t, rest, [EndBlock]);
          }
        }
      }
    }
  }

  /** A successful `parse` consumed the rest of the input, and that rest is
      exactly the printed form of the statements it returned. */
  lemma {:induction false} ParseIsPrinted(toks: seq<Token>, p: nat)
    requires p <= |toks|
    decreases |toks| - p
    ensures var s := ParseAt(toks, p);
      s.result.Ok? ==> AllPrintable(s.result.value) && At(toks, p, PrintAll(s.result.value))
                       && s.pos == p + |PrintAll(s.result.value)| == |toks|
  {
    if p < |toks| {
      var t := TokenAt(toks, p + 1, toks[p]);
      if t.result.Ok? {
        TokenIsPrinted(toks, p);
        ParseIsPrinted(toks, t.pos);
        var rest := ParseAt(toks, t.pos);
        if rest.result.Ok? {
          ParseStepOk(toks, p, t);
          var v := PrintAll(rest.result.value);
          assert v + [] == v;
          PrintedStep(toks, p, ParseAt(toks, p), t, rest, []);
          var u := PrintAll(ParseAt(toks, p).result.value);
          assert u + [] == u;
        }
      }
    } else {
      assert toks[p..p] == [];
    }
  }

  /** The corrected `parse` accepts exactly the printed programs: it returns
      `ss` for the whole of `toks` if and only if `toks` is `ss` printed. */
  lemma ParseOkIffPrinted(toks: seq<Token>, ss: seq<ParserToken>)
    ensures ParseAt(toks, 0) == Step(Ok(ss), |toks|) <==> AllPrintable(ss) && toks == PrintAll(ss)
  {
    if ParseAt(toks, 0) == Step(Ok(ss), |toks|) {
      ParseIsPrinted(toks, 0);
      assert toks[0..|toks|] == toks;
    }
    if AllPrintable(ss) && toks == PrintAll(ss) {
      PrintThenParse(ss);
    }
  }
}
