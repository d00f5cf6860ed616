/** Concrete inputs on which the parser as written (`Grammar`) and the
    corrected one (`Corrected`) part ways. */
module Findings {
  import opened Tokens
  import opened Ast
  import Grammar
  import Corrected

  /** `fn main() { let test = 5; }`: as written, the function header is
      never recognised; corrected, it parses to the function with its
      single binding. */
  lemma MainFunctionExample()
    ensures var toks := [FnDeclaration, Token.Identifier("main"), OpenParen, CloseParen, BeginBlock,
                         LetDeclaration, Token.Identifier("test"), Equals, Token.Number("5"), EndStatement,
                         EndBlock];
      && Grammar.ParseAt(toks, 0) == Step(Err(FunctionMismatch), 1)
      && Corrected.ParseAt(toks, 0) ==
           Step(Ok([Function("main", [Assignment("test", Let, ExpressionKind.Number("5"))])]), |toks|)
  {
    var binding := Assignment("test", Let, ExpressionKind.Number("5"));
    var main := Function("main", [binding]);
    assert Corrected.AllPrintable([]);
    assert [binding][1..] == [] && [main][1..] == [];
    assert Corrected.Printable(binding);
    assert Corrected.AllPrintable([binding]);
    assert Corrected.Printable(main);
    assert Corrected.AllPrintable([main]);
    assert Corrected.PrintAll([binding]) == Corrected.Print(binding);
    assert Corrected.PrintAll([main]) == Corrected.Print(main);
    assert Corrected.PrintAll([main]) ==
      [FnDeclaration, Token.Identifier("main"), OpenParen, CloseParen, BeginBlock,
       LetDeclaration, Token.Identifier("test"), Equals, Token.Number("5"), EndStatement,
       EndBlock];
    Corrected.PrintThenParse([main]);
  }

  /** `let x = 5;` at top level: as written, `parse_assignment` looks for
      the already consumed keyword and fails; corrected, it is a binding. */
  lemma TopLevelBindingExample()
    ensures var toks := [LetDeclaration, Token.Identifier("x"), Equals, Token.Number("5"), EndStatement];
      && Grammar.ParseAt(toks, 0) == Step(Err(AssignmentMismatch), 1)
      && Corrected.ParseAt(toks, 0) == Step(Ok([Assignment("x", Let, ExpressionKind.Number("5"))]), |toks|)
  {
    var binding := Assignment("x", Let, ExpressionKind.Number("5"));
    assert Corrected.AllPrintable([]);
    assert [binding][1..] == [];
    assert Corrected.Printable(binding);
    assert Corrected.AllPrintable([binding]);
    assert Corrected.PrintAll([binding]) == Corrected.Print(binding);
    Corrected.PrintThenParse([binding]);
  }
}
