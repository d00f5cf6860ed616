/** The parsing routines of src/parser.rs as written, as functions of the token
    list and the cursor position. Each returns the outcome together with the
    position the Rust method leaves the cursor at; the class in parser.dfy is
    proved to compute exactly these. */
module Grammar {
  import opened Tokens
  import opened Ast
  import opened Cursor

  function Min(a: nat, b: nat): nat { if a <= b then a else b }

  /** The assignment shape read straight off the token list: a binding keyword,
      a name, `=`, a string or number literal and `;`, starting at `p`. */
  predicate AssignmentShape(toks: seq<Token>, p: nat) {
    p + 5 <= |toks| && IsDeclaration(toks[p]) && toks[p + 1].Identifier?
    && toks[p + 2] == Equals && IsLiteral(toks[p + 3]) && toks[p + 4] == EndStatement
  }

  /** `parse_assignment`: a guarded five-slot slice pattern over `window(0, 5)`.
      Being a function of the state it cannot move the cursor. */
  function ParseAssignmentAt(toks: seq<Token>, p: nat): (r: Result<ParserToken>)
    ensures r.Ok? <==> AssignmentShape(toks, p)
    ensures r.Err? ==> r.error == AssignmentMismatch
    ensures r.Ok? ==> r.value.Assignment? && r.value.identifier == toks[p + 1].name
    ensures r.Ok? ==> (r.value.assignmentType == Let <==> toks[p] == LetDeclaration)
    ensures r.Ok? && toks[p + 3].StringLiteral? ==>
              r.value.source == ExpressionKind.StringLiteral(toks[p + 3].text)
    ensures r.Ok? && toks[p + 3].Number? ==>
              r.value.source == ExpressionKind.Number(toks[p + 3].digits)
  {
    WindowSlots(toks, p, 0, 5);
    var w := WindowAt(toks, p, 0, 5);
    if |w| == 5 && w[0].Some? && IsDeclaration(w[0].value)
       && w[1].Some? && w[1].value.Identifier? && w[2] == Some(Equals)
       && w[3].Some? && IsLiteral(w[3].value) && w[4] == Some(EndStatement)
    then
      var kind := if w[0].value == LetDeclaration then Let else Const;
      Ok(Assignment(w[1].value.name, kind, LiteralExpression(w[3].value)))
    else
      Err(AssignmentMismatch)
  }

  /** The function-header slice pattern `[name, (, ), {]`: it has four slots,
      so it matches only a four-slot window, and then yields the name. */
  function HeaderName(w: seq<Option<Token>>): (name: Option<string>)
  {
    if |w| == 4 && w[0].Some? && w[0].value.Identifier? && w[1] == Some(OpenParen)
       && w[2] == Some(CloseParen) && w[3] == Some(BeginBlock)
    then Some(w[0].value.name)
    else None
  }

  /** Over the token list: the header pattern matches `window(a, b)` with
      name `n` exactly when the window has four slots and the tokens name
      `n`, `(`, `)`, `{` stand at offset `a` from the cursor. So no
      three-slot window ever matches. */
  lemma HeaderWindow(toks: seq<Token>, p: nat, a: nat, b: nat, n: string)
    requires a <= b
    ensures HeaderName(WindowAt(toks, p, a, b)) == Some(n) <==>
              b - a == 4 && At(toks, p + a, [Token.Identifier(n), OpenParen, CloseParen, BeginBlock])
  {
    var h := [Token.Identifier(n), OpenParen, CloseParen, BeginBlock];
    var w := WindowAt(toks, p, a, b);
    WindowSlots(toks, p, a, b);
    if b - a == 4 {
      if At(toks, p + a, h) {
        AtIndex(toks, p + a, h, 0);
        AtIndex(toks, p + a, h, 1);
        AtIndex(toks, p + a, h, 2);
        AtIndex(toks, p + a, h, 3);
        assert w[0] == Some(h[0]) && w[1] == Some(h[1]) && w[2] == Some(h[2]) && w[3] == Some(h[3]);
      }
      if HeaderName(w) == Some(n) {
        assert w[3].Some?;
        var q := p + a;
        assert toks[q..q + 4] == [toks[q], toks[q + 1], toks[q + 2], toks[q + 3]];
      }
    }
  }

  /** `parse_function` as written. Its header pattern is matched against
      `window(1, 4)`, which has three slots, so the arm that would build a
      Function from `parse_func_body` can never be taken (Dafny proves the
      missing `Some` case unreachable) and every call ends in the
      "fn does not match" panic without moving the cursor. */
  function ParseFunctionAt(toks: seq<Token>, p: nat): (s: Step<ParserToken>)
    ensures s == Step(Err(FunctionMismatch), p)
  {
    match HeaderName(WindowAt(toks, p, 1, 4))
    case None => Step(Err(FunctionMismatch), p)
  }

  /** `parse_token`: dispatch on a token the caller has already consumed. */
  function ParseTokenAt(toks: seq<Token>, p: nat, first: Token): (s: Step<ParserToken>)
    ensures s.pos == p
    ensures s.result.Ok? <==> IsDeclaration(first) && AssignmentShape(toks, p)
    ensures IsDeclaration(first) ==> s.result == ParseAssignmentAt(toks, p)
    ensures first == FnDeclaration ==> s.result == Err(FunctionMismatch)
    ensures first == If || first == ReturnFn ==> s.result == Err(Unimplemented(first))
    ensures !IsDeclaration(first) && first != FnDeclaration && first != If && first != ReturnFn ==>
              s.result == Err(UnexpectedToken(first))
  {
    match first
    case FnDeclaration => ParseFunctionAt(toks, p)
    case LetDeclaration => Step(ParseAssignmentAt(toks, p), p)
    case ConstDeclaration => Step(ParseAssignmentAt(toks, p), p)
    case If => Step(Err(Unimplemented(first)), p)
    case ReturnFn => Step(Err(Unimplemented(first)), p)
    case _ => Step(Err(UnexpectedToken(first)), p)
  }

  /** The `while let` loop of `parse_func_body`: take a token; stop after an
      `EndBlock` or at the end of input; otherwise parse the statement it
      starts and go on. A failing statement ends the parse. */
  function BodyLoopAt(toks: seq<Token>, p: nat): (s: Step<seq<ParserToken>>)
    requires p <= |toks|
    decreases |toks| - p
    ensures p <= s.pos <= |toks|
  {
    if p == |toks| then Step(Ok([]), p)
    else if toks[p] == EndBlock then Step(Ok([]), p + 1)
    else
      var t := ParseTokenAt(toks, p + 1, toks[p]);
      if t.result.Err? then Step(Err(t.result.error), t.pos)
      else Prepend([t.result.value], BodyLoopAt(toks, t.pos))
  }

  /** One round of the body loop on a token other than `EndBlock`. */
  lemma BodyLoopStep(toks: seq<Token>, p: nat)
    requires p < |toks| && toks[p] != EndBlock
    ensures var t := ParseTokenAt(toks, p + 1, toks[p]);
      BodyLoopAt(toks, p) == if t.result.Err? then Step(Err(t.result.error), t.pos)
                             else Prepend([t.result.value], BodyLoopAt(toks, t.pos))
  {
  }

  /** `parse_func_body`: skip five tokens, run the loop, and succeed only if a
      token is left afterwards. */
  function ParseFuncBodyAt(toks: seq<Token>, p: nat): (s: Step<seq<ParserToken>>)
    requires p <= |toks|
    ensures s.pos <= |toks|
  {
    var loop := BodyLoopAt(toks, Min(p + 5, |toks|));
    if loop.result.Err? then loop
    else if PeekNthAt(toks, loop.pos, 0).Some? then loop
    else Step(Err(UnterminatedBody), loop.pos)
  }

  /** `parse`: take a token and parse the statement it starts, until the
      input is exhausted; a failing statement ends the parse. */
  function ParseAt(toks: seq<Token>, p: nat): (s: Step<seq<ParserToken>>)
    requires p <= |toks|
    decreases |toks| - p
    ensures p <= s.pos <= |toks|
    ensures s.result.Ok? ==> s.pos == |toks|
  {
    if p == |toks| then Step(Ok([]), p)
    else
      var t := ParseTokenAt(toks, p + 1, toks[p]);
      if t.result.Err? then Step(Err(t.result.error), t.pos)
      else Prepend([t.result.value], ParseAt(toks, t.pos))
  }

  /** The body loop as written succeeds only with an empty body: a statement
      that parses has left the cursor on the binding keyword it was given
      after (`parse_assignment` consumes nothing), and the loop then fails on
      that keyword, whose window starts at a name. So a successful loop either
      met the end of input or an `EndBlock` as its first token. */
  lemma BodyLoopOkOnlyEmpty(toks: seq<Token>, p: nat)
    requires p <= |toks|
    ensures var s := BodyLoopAt(toks, p);
      s.result.Ok? <==> p == |toks| || toks[p] == EndBlock
    ensures var s := BodyLoopAt(toks, p);
      s.result.Ok? ==> s.result.value == [] && s.pos == Min(p + 1, |toks|)
  {
    if p < |toks| && toks[p] != EndBlock {
      var t := ParseTokenAt(toks, p + 1, toks[p]);
      if t.result.Ok? {
        assert AssignmentShape(toks, p + 1);
        assert !AssignmentShape(toks, p + 2);
        assert BodyLoopAt(toks, p + 1).result.Err?;
      }
    }
  }

  /** `parse_func_body` as written fails exactly when its loop fails or no
      token is left after it. Since the loop succeeds only on an empty body,
      after skipping five tokens it succeeds exactly when the next token is an `EndBlock` and some token follows
      it, and then yields the empty body and leaves the cursor after that
      `EndBlock`. */
  lemma FuncBodyOkIff(toks: seq<Token>, p: nat)
    requires p <= |toks|
    ensures var loop := BodyLoopAt(toks, Min(p + 5, |toks|));
      ParseFuncBodyAt(toks, p).result.Ok? <==> loop.result.Ok? && loop.pos < |toks|
    ensures var start := Min(p + 5, |toks|);
      ParseFuncBodyAt(toks, p).result.Ok? <==> start + 1 < |toks| && toks[start] == EndBlock
    ensures var start := Min(p + 5, |toks|);
      ParseFuncBodyAt(toks, p).result.Ok? ==> ParseFuncBodyAt(toks, p) == Step(Ok([]), start + 1)
  {
    BodyLoopOkOnlyEmpty(toks, Min(p + 5, |toks|));
  }

  /** A body closed by an `EndBlock` that is the last token of the input is
      rejected as unterminated, though it was terminated. */
  lemma BodyClosedAtEndIsRejected(toks: seq<Token>, p: nat)
    requires p + 6 == |toks| && toks[p + 5] == EndBlock
    ensures ParseFuncBodyAt(toks, p) == Step(Err(UnterminatedBody), |toks|)
  {
    assert BodyLoopAt(toks, p + 5) == Step(Ok([]), p + 6);
  }

  /** `parse` succeeds only on an exhausted input: the keyword of a binding is
      consumed before `parse_assignment` looks for it at offset 0, a matched
      assignment consumes nothing more, and so the next statement starts at a
      name that the following window then rejects. */
  lemma ParseRejectsNonEmpty(toks: seq<Token>, p: nat)
    requires p <= |toks|
    ensures ParseAt(toks, p).result.Ok? <==> p == |toks|
  {
    if p < |toks| {
      var t := ParseTokenAt(toks, p + 1, toks[p]);
      if t.result.Ok? {
        assert AssignmentShape(toks, p + 1);
        assert IsDeclaration(toks[p + 1]) && toks[p + 2].Identifier?;
        assert !AssignmentShape(toks, p + 2);
        assert ParseTokenAt(toks, p + 2, toks[p + 1]).result.Err?;
        assert ParseAt(toks, p + 1).result.Err?;
      }
    }
  }

  /** A leading token that starts no binding ends `parse` after that one
      token: `fn` with "fn does not match", `if` and `return` as
      unimplemented, and anything else with "unexpected token". */
  lemma ParseStopsAtNonBinding(toks: seq<Token>, p: nat)
    requires p < |toks| && !IsDeclaration(toks[p])
    ensures toks[p] == FnDeclaration ==> ParseAt(toks, p) == Step(Err(FunctionMismatch), p + 1)
    ensures toks[p] == If || toks[p] == ReturnFn ==>
              ParseAt(toks, p) == Step(Err(Unimplemented(toks[p])), p + 1)
    ensures toks[p] != FnDeclaration && toks[p] != If && toks[p] != ReturnFn ==>
              ParseAt(toks, p) == Step(Err(UnexpectedToken(toks[p])), p + 1)
  {
  }
}
