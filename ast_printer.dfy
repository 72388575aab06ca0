/** AstPrinter: renders an expression as a parenthesised prefix form, e.g.
    `(* (- 123) (group 45.67))`. Text is what the printer produces; Print
    and Paranthesize build it the way the Java code does, appending to a
    buffer one child at a time. */
module AstPrinter {
  import opened Tokens
  import opened Values
  import opened Strings
  import opened Syntax

  /** The expressions AstPrinter has a visitor for: binary, grouping,
      literal, unary, ternary and variable. */
  predicate Printable(e: Expr)
  {
    match e
    case Binary(l, _, r) => Printable(l) && Printable(r)
    case Grouping(x) => Printable(x)
    case Literal(_) => true
    case Unary(_, r) => Printable(r)
    case Ternary(c, _, t, _, f) => Printable(c) && Printable(t) && Printable(f)
    case Variable(_, _) => true
    case _ => false
  }

  /** "(" + name, then a space and each part, then ")". */
  function Parenthesized(name: string, parts: seq<string>): (r: string)
    ensures |r| >= 2 + |name| + |parts| && r[0] == '(' && r[|r| - 1] == ')'
    ensures r[1..|name| + 1] == name
  {
    "(" + name + Spaced(parts) + ")"
  }

  /** The prefix form of a printable expression: every node but a leaf is
      wrapped in one pair of parentheses. */
  function Text(h: Host, e: Expr): (r: string)
    requires Printable(e)
    ensures !e.Literal? && !e.Variable? ==> |r| >= 2 && r[0] == '(' && r[|r| - 1] == ')'
  {
    match e
    case Binary(l, operator, r) => Parenthesized(operator.lexeme, [Text(h, l), Text(h, r)])
    case Grouping(x) => Parenthesized("group", [Text(h, x)])
    case Literal(v) => ValueText(h, v)
    case Unary(operator, r) => Parenthesized(operator.lexeme, [Text(h, r)])
    case Ternary(c, operator1, t, operator2, f) =>
      Parenthesized(operator1.lexeme + operator2.lexeme, [Text(h, c), Text(h, t), Text(h, f)])
    case Variable(_, name) => name.lexeme
  }

  /** The prefix forms of a list of expressions, in order. */
  function Texts(h: Host, exprs: seq<Expr>): (r: seq<string>)
    requires forall k :: 0 <= k < |exprs| ==> Printable(exprs[k])
    ensures |r| == |exprs|
    ensures forall k :: 0 <= k < |exprs| ==> r[k] == Text(h, exprs[k])
  {
    if exprs == [] then [] else Texts(h, exprs[..|exprs| - 1]) + [Text(h, exprs[|exprs| - 1])]
  }

  /** print: the visitor of the expression's kind. */
  method Print(h: Host, e: Expr) returns (r: string)
    requires Printable(e)
    ensures r == Text(h, e)
    decreases e, 1
  {
    match e
    case Binary(l, operator, right) =>
      r := Paranthesize(h, operator.lexeme, [l, right], e);
      assert Texts(h, [l, right]) == [Text(h, l), Text(h, right)];
    case Grouping(x) =>
      r := Paranthesize(h, "group", [x], e);
      assert Texts(h, [x]) == [Text(h, x)];
    case Literal(v) =>
      r := if v == Nil then "nil" else ValueText(h, v);
    case Unary(operator, right) =>
      r := Paranthesize(h, operator.lexeme, [right], e);
      assert Texts(h, [right]) == [Text(h, right)];
    case Ternary(c, operator1, t, operator2, f) =>
      r := Paranthesize(h, operator1.lexeme + operator2.lexeme, [c, t, f], e);
      assert Texts(h, [c, t, f]) == [Text(h, c), Text(h, t), Text(h, f)];
    case Variable(_, name) =>
      r := name.lexeme;
  }

  /** paranthesize: "(" and the name, then for each child a space and its
      rendering, then ")". `parent` is the node whose children these are. */
  method Paranthesize(h: Host, name: string, exprs: seq<Expr>, ghost parent: Expr) returns (r: string)
    requires forall k :: 0 <= k < |exprs| ==> exprs[k] < parent && Printable(exprs[k])
    ensures r == Parenthesized(name, Texts(h, exprs))
    decreases parent, 0
  {
    var builder := "(" + name;
    var i := 0;
    while i < |exprs|
      invariant 0 <= i <= |exprs|
      invariant builder == "(" + name + Spaced(Texts(h, exprs[..i]))
    {
      var part := Print(h, exprs[i]);
      AppendChild(h, "(" + name, exprs, i);
      builder := builder + " " + part;
      i := i + 1;
    }
    assert exprs[..i] == exprs;
    r := builder + ")";
  }

  /** One turn of the loop: appending a space and the next child's text. */
  lemma AppendChild(h: Host, head: string, exprs: seq<Expr>, i: nat)
    requires i < |exprs| && forall k :: 0 <= k < |exprs| ==> Printable(exprs[k])
    ensures head + Spaced(Texts(h, exprs[..i])) + " " + Text(h, exprs[i]) == head + Spaced(Texts(h, exprs[..i + 1]))
  {
    var done := Texts(h, exprs[..i]);
    assert exprs[..i + 1][..i] == exprs[..i];
    assert Texts(h, exprs[..i + 1]) == done + [Text(h, exprs[i])];
    SpacedSnoc(done, Text(h, exprs[i]));
    Associative(head, Spaced(done), " ");
    Associative(head, Spaced(done) + " ", Text(h, exprs[i]));
  }

  lemma ParenthesizedOne(name: string, a: string)
    ensures Parenthesized(name, [a]) == "(" + name + " " + a + ")"
  {
    SpacedOne(a);
    assert "(" + name + (" " + a) + ")" == "(" + name + " " + a + ")";
  }

  lemma ParenthesizedTwo(name: string, a: string, b: string)
    ensures Parenthesized(name, [a, b]) == "(" + name + " " + a + " " + b + ")"
  {
    SpacedTwo(a, b);
    assert "(" + name + (" " + a + " " + b) + ")" == "(" + name + " " + a + " " + b + ")";
  }

  lemma ParenthesizedThree(name: string, a: string, b: string, c: string)
    ensures Parenthesized(name, [a, b, c]) == "(" + name + " " + a + " " + b + " " + c + ")"
  {
    SpacedThree(a, b, c);
    assert "(" + name + (" " + a + " " + b + " " + c) + ")" == "(" + name + " " + a + " " + b + " " + c + ")";
  }

  /** Binary prints `(op L R)`. */
  lemma BinaryShape(h: Host, l: Expr, operator: Token, r: Expr)
    requires Printable(l) && Printable(r)
    ensures Text(h, Binary(l, operator, r)) == "(" + operator.lexeme + " " + Text(h, l) + " " + Text(h, r) + ")"
  {
    ParenthesizedTwo(operator.lexeme, Text(h, l), Text(h, r));
  }

  /** Unary prints `(op R)`. */
  lemma UnaryShape(h: Host, operator: Token, r: Expr)
    requires Printable(r)
    ensures Text(h, Unary(operator, r)) == "(" + operator.lexeme + " " + Text(h, r) + ")"
  {
    ParenthesizedOne(operator.lexeme, Text(h, r));
  }

  /** Grouping prints `(group E)`. */
  lemma GroupingShape(h: Host, x: Expr)
    requires Printable(x)
    ensures Text(h, Grouping(x)) == "(group " + Text(h, x) + ")"
  {
    ParenthesizedOne("group", Text(h, x));
    assert "(" + "group" + " " + Text(h, x) + ")" == "(group " + Text(h, x) + ")";
  }

  /** Ternary prints both operator lexemes as its head, then the condition,
      the then-branch and the else-branch. */
  lemma TernaryShape(h: Host, c: Expr, operator1: Token, t: Expr, operator2: Token, f: Expr)
    requires Printable(c) && Printable(t) && Printable(f)
    ensures var name := operator1.lexeme + operator2.lexeme;
            Text(h, Ternary(c, operator1, t, operator2, f)) ==
            "(" + name + " " + Text(h, c) + " " + Text(h, t) + " " + Text(h, f) + ")"
  {
    ParenthesizedThree(operator1.lexeme + operator2.lexeme, Text(h, c), Text(h, t), Text(h, f));
  }

  /** A nil literal prints "nil"; a variable prints its name. */
  lemma Leaves(h: Host, name: Token, node: nat)
    ensures Text(h, Literal(Nil)) == "nil"
    ensures Text(h, Literal(Bool(true))) == "true"
    ensures Text(h, Variable(node, name)) == name.lexeme
  {
  }

  function Opens(s: string): nat
  {
    multiset(s)['(']
  }

  function Closes(s: string): nat
  {
    multiset(s)[')']
  }

  /** No literal text, variable name or operator lexeme in e holds a
      parenthesis. */
  predicate LeavesParenFree(h: Host, e: Expr)
    requires Printable(e)
  {
    match e
    case Binary(l, operator, r) =>
      ParenFree(operator.lexeme) && LeavesParenFree(h, l) && LeavesParenFree(h, r)
    case Grouping(x) => LeavesParenFree(h, x)
    case Literal(v) => ParenFree(ValueText(h, v))
    case Unary(operator, r) => ParenFree(operator.lexeme) && LeavesParenFree(h, r)
    case Ternary(c, operator1, t, operator2, f) =>
      ParenFree(operator1.lexeme + operator2.lexeme) &&
      LeavesParenFree(h, c) && LeavesParenFree(h, t) && LeavesParenFree(h, f)
    case Variable(_, name) => ParenFree(name.lexeme)
  }

  predicate Balanced(s: string)
  {
    Opens(s) == Closes(s)
  }

  predicate ParenFree(s: string)
  {
    Opens(s) == 0 && Closes(s) == 0
  }

  lemma OnePartBalanced(name: string, a: string)
    requires ParenFree(name) && Balanced(a)
    ensures Balanced("(" + name + " " + a + ")")
  {
    assert multiset("(" + name + " " + a + ")") == multiset("(") + multiset(name) + multiset(" ") + multiset(a) + multiset(")");
  }

  lemma TwoPartsBalanced(name: string, a: string, b: string)
    requires ParenFree(name) && Balanced(a) && Balanced(b)
    ensures Balanced("(" + name + " " + a + " " + b + ")")
  {
    assert multiset("(" + name + " " + a + " " + b + ")") ==
      multiset("(") + multiset(name) + multiset(" ") + multiset(a) + multiset(" ") + multiset(b) + multiset(")");
  }

  lemma ThreePartsBalanced(name: string, a: string, b: string, c: string)
    requires ParenFree(name) && Balanced(a) && Balanced(b) && Balanced(c)
    ensures Balanced("(" + name + " " + a + " " + b + " " + c + ")")
  {
    assert multiset("(" + name + " " + a + " " + b + " " + c + ")") ==
      multiset("(") + multiset(name) + multiset(" ") + multiset(a) + multiset(" ") + multiset(b) +
      multiset(" ") + multiset(c) + multiset(")");
  }

  lemma BinaryBalanced(h: Host, l: Expr, operator: Token, r: Expr)
    requires Printable(l) && Printable(r) && ParenFree(operator.lexeme)
    requires Balanced(Text(h, l)) && Balanced(Text(h, r))
    ensures Balanced(Text(h, Binary(l, operator, r)))
  {
    BinaryShape(h, l, operator, r);
    TwoPartsBalanced(operator.lexeme, Text(h, l), Text(h, r));
  }

  lemma GroupingBalanced(h: Host, x: Expr)
    requires Printable(x) && Balanced(Text(h, x))
    ensures Balanced(Text(h, Grouping(x)))
  {
    ParenthesizedOne("group", Text(h, x));
    GroupIsParenFree();
    OnePartBalanced("group", Text(h, x));
  }

  lemma GroupIsParenFree()
    ensures ParenFree("group")
  {
    assert multiset("group") == multiset{'g', 'r', 'o', 'u', 'p'};
  }

  lemma UnaryBalanced(h: Host, operator: Token, r: Expr)
    requires Printable(r) && ParenFree(operator.lexeme) && Balanced(Text(h, r))
    ensures Balanced(Text(h, Unary(operator, r)))
  {
    UnaryShape(h, operator, r);
    OnePartBalanced(operator.lexeme, Text(h, r));
  }

  lemma TernaryBalanced(h: Host, c: Expr, operator1: Token, t: Expr, operator2: Token, f: Expr)
    requires Printable(c) && Printable(t) && Printable(f) && ParenFree(operator1.lexeme + operator2.lexeme)
    requires Balanced(Text(h, c)) && Balanced(Text(h, t)) && Balanced(Text(h, f))
    ensures Balanced(Text(h, Ternary(c, operator1, t, operator2, f)))
  {
    TernaryShape(h, c, operator1, t, operator2, f);
    ThreePartsBalanced(operator1.lexeme + operator2.lexeme, Text(h, c), Text(h, t), Text(h, f));
  }

  /** Each node adds exactly one "(" and one ")": the output has as many
      opening as closing parentheses. */
  lemma {:induction false} TextIsBalanced(h: Host, e: Expr)
    requires Printable(e) && LeavesParenFree(h, e)
    ensures Balanced(Text(h, e))
  {
    match e
    case Binary(l, operator, r) =>
      TextIsBalanced(h, l);
      TextIsBalanced(h, r);
      BinaryBalanced(h, l, operator, r);
    case Grouping(x) =>
      TextIsBalanced(h, x);
      GroupingBalanced(h, x);
    case Literal(_) =>
    case Unary(operator, r) =>
      TextIsBalanced(h, r);
      UnaryBalanced(h, operator, r);
    case Ternary(c, operator1, t, operator2, f) =>
      TextIsBalanced(h, c);
      TextIsBalanced(h, t);
      TextIsBalanced(h, f);
      TernaryBalanced(h, c, operator1, t, operator2, f);
    case Variable(_, _) =>
  }

  lemma DemoNegated(h: Host, minus: Token)
    requires minus.lexeme == "-" && h.numberText(123.0) == "123"
    ensures Text(h, Unary(minus, Literal(Num(123.0)))) == "(- 123)"
  {
    UnaryShape(h, minus, Literal(Num(123.0)));
  }

  lemma DemoGrouped(h: Host)
    requires h.numberText(45.67) == "45.67"
    ensures Text(h, Grouping(Literal(Num(45.67)))) == "(group 45.67)"
  {
    GroupingShape(h, Literal(Num(45.67)));
  }

  /** The demonstration tree `-123 * (45.67)` prints as
      `(* (- 123) (group 45.67))`, given the host's text for the two numbers. */
  lemma Demonstration(h: Host, minus: Token, star: Token)
    requires minus.lexeme == "-" && star.lexeme == "*"
    requires h.numberText(123.0) == "123" && h.numberText(45.67) == "45.67"
    ensures var tree := Binary(Unary(minus, Literal(Num(123.0))), star, Grouping(Literal(Num(45.67))));
            Printable(tree) && Text(h, tree) == "(* (- 123) (group 45.67))"
  {
    var negated := Unary(minus, Literal(Num(123.0)));
    var grouped := Grouping(Literal(Num(45.67)));
    DemoNegated(h, minus);
    DemoGrouped(h);
    BinaryShape(h, negated, star, grouped);
    DemoSpelling();
  }

  lemma DemoSpelling()
    ensures "(" + "*" + " " + "(- 123)" + " " + "(group 45.67)" + ")" == "(* (- 123) (group 45.67))"
  {
  }
}
