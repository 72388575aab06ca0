/** PostFix: renders an expression in postfix order, operands first and the
    operator last, each item preceded by a space (e.g. ` 7 5 +`). Text is what
    the printer produces; Print and Postorder build it the way the Java code
    does, appending to a buffer one operand at a time. */
module PostFix {
  import opened Tokens
  import opened Values
  import opened Strings
  import opened Syntax

  /** The expressions PostFix has a visitor for: binary, grouping, literal
      and unary. */
  predicate Printable(e: Expr)
  {
    match e
    case Binary(l, _, r) => Printable(l) && Printable(r)
    case Grouping(x) => Printable(x)
    case Literal(_) => true
    case Unary(_, r) => Printable(r)
    case _ => false
  }

  /** A space and each part, then a space and the name. */
  function Postordered(name: string, parts: seq<string>): (r: string)
    ensures |r| >= |parts| + 1 + |name|
    ensures r[0] == ' ' && EndsWith(r, " " + name)
  {
    var r := Spaced(parts) + " " + name;
    assert r[|r| - |name| - 1..] == " " + name;
    r
  }

  /** An operand postorder renders: a child of the node, or the literal the
      unary visitor creates itself. That literal holds a Java Integer 0, whose
      toString is "0" whatever text the host gives the number 0.0. */
  datatype Operand = Child(e: Expr) | IntegerZero

  /** The text of the Integer 0 the unary visitor supplies. */
  const ZeroText: string := "0"

  /** The postfix form of a printable expression: every node but a literal
      starts with a space and ends with its operator's name. */
  function Text(h: Host, e: Expr): (r: string)
    requires Printable(e)
    ensures !e.Literal? ==> |r| > 0 && r[0] == ' '
    ensures e.Binary? || e.Unary? ==> EndsWith(r, " " + e.operator.lexeme)
  {
    match e
    case Binary(l, operator, r) => Postordered(operator.lexeme, [Text(h, l), Text(h, r)])
    case Grouping(x) => Postordered("", [Text(h, x)])
    case Literal(v) => ValueText(h, v)
    case Unary(operator, r) => Postordered(operator.lexeme, [ZeroText, Text(h, r)])
  }

  predicate OperandPrintable(o: Operand)
  {
    match o
    case Child(e) => Printable(e)
    case IntegerZero => true
  }

  /** The postfix form of an operand. */
  function OperandText(h: Host, o: Operand): string
    requires OperandPrintable(o)
  {
    match o
    case Child(e) => Text(h, e)
    case IntegerZero => ZeroText
  }

  /** The postfix forms of a list of operands, in order. */
  function OperandTexts(h: Host, operands: seq<Operand>): (r: seq<string>)
    requires forall k :: 0 <= k < |operands| ==> OperandPrintable(operands[k])
    ensures |r| == |operands|
    ensures forall k :: 0 <= k < |operands| ==> r[k] == OperandText(h, operands[k])
  {
    if operands == [] then []
    else OperandTexts(h, operands[..|operands| - 1]) + [OperandText(h, operands[|operands| - 1])]
  }

  /** print: the visitor of the expression's kind. */
  method Print(h: Host, e: Expr) returns (r: string)
    requires Printable(e)
    ensures r == Text(h, e)
    decreases e, 1
  {
    match e
    case Binary(l, operator, right) =>
      r := Postorder(h, operator.lexeme, [Child(l), Child(right)], e);
      assert OperandTexts(h, [Child(l), Child(right)]) == [Text(h, l), Text(h, right)];
    case Grouping(x) =>
      r := Postorder(h, "", [Child(x)], e);
      assert OperandTexts(h, [Child(x)]) == [Text(h, x)];
    case Literal(v) =>
      r := if v == Nil then "nil" else ValueText(h, v);
    case Unary(operator, right) =>
      r := Postorder(h, operator.lexeme, [IntegerZero, Child(right)], e);
      assert OperandTexts(h, [IntegerZero, Child(right)]) == [ZeroText, Text(h, right)];
  }

  /** An operand of `parent`: one of its children, or the synthetic zero. */
  ghost predicate OperandOf(o: Operand, parent: Expr)
  {
    match o
    case Child(e) => e < parent
    case IntegerZero => true
  }

  /** postorder: for each operand a space and its rendering, then a space
      and the name. `parent` is the node the operands belong to. */
  method Postorder(h: Host, name: string, operands: seq<Operand>, ghost parent: Expr) returns (r: string)
    requires forall k :: 0 <= k < |operands| ==> OperandOf(operands[k], parent) && OperandPrintable(operands[k])
    ensures r == Postordered(name, OperandTexts(h, operands))
    decreases parent, 0
  {
    var builder := "";
    var i := 0;
    while i < |operands|
      invariant 0 <= i <= |operands|
      invariant builder == Spaced(OperandTexts(h, operands[..i]))
    {
      var part := PrintOperand(h, operands[i], parent);
      AppendOperand(h, operands, i);
      builder := builder + " " + part;
      i := i + 1;
    }
    assert operands[..i] == operands;
    r := builder + " " + name;
  }

  /** `expr.accept(this)` on an operand: a child is printed by its visitor,
      and the synthetic Integer 0 prints as "0". */
  method PrintOperand(h: Host, o: Operand, ghost parent: Expr) returns (r: string)
    requires OperandOf(o, parent) && OperandPrintable(o)
    ensures r == OperandText(h, o)
    ensures o.IntegerZero? ==> r == "0"
    decreases parent, 0, o
  {
    match o
    case IntegerZero =>
      r := ZeroText;
    case Child(e) =>
      r := Print(h, e);
  }

  /** One turn of the loop: appending a space and the next operand's text. */
  lemma AppendOperand(h: Host, operands: seq<Operand>, i: nat)
    requires i < |operands| && forall k :: 0 <= k < |operands| ==> OperandPrintable(operands[k])
    ensures Spaced(OperandTexts(h, operands[..i])) + " " + OperandText(h, operands[i])
            == Spaced(OperandTexts(h, operands[..i + 1]))
  {
    assert operands[..i + 1][..i] == operands[..i];
    assert OperandTexts(h, operands[..i + 1]) == OperandTexts(h, operands[..i]) + [OperandText(h, operands[i])];
    SpacedSnoc(OperandTexts(h, operands[..i]), OperandText(h, operands[i]));
  }

  lemma PostorderedOne(name: string, a: string)
    ensures Postordered(name, [a]) == " " + a + " " + name
  {
    SpacedOne(a);
  }

  lemma PostorderedTwo(name: string, a: string, b: string)
    ensures Postordered(name, [a, b]) == " " + a + " " + b + " " + name
  {
    SpacedTwo(a, b);
  }

  /** Binary renders as ` L R op`: both operands, then the operator. */
  lemma BinaryShape(h: Host, l: Expr, operator: Token, r: Expr)
    requires Printable(l) && Printable(r)
    ensures Text(h, Binary(l, operator, r)) == " " + Text(h, l) + " " + Text(h, r) + " " + operator.lexeme
  {
    PostorderedTwo(operator.lexeme, Text(h, l), Text(h, r));
  }

  /** Unary renders as a binary whose left operand is the Integer 0:
      ` 0 R op`. */
  lemma UnaryShape(h: Host, operator: Token, r: Expr)
    requires Printable(r)
    ensures Text(h, Unary(operator, r)) == " 0 " + Text(h, r) + " " + operator.lexeme
  {
    PostorderedTwo(operator.lexeme, ZeroText, Text(h, r));
    assert " " + ZeroText + " " == " 0 ";
  }

  /** Grouping has an empty operator name, so it renders as ` E ` with a
      trailing space. */
  lemma GroupingShape(h: Host, x: Expr)
    requires Printable(x)
    ensures Text(h, Grouping(x)) == " " + Text(h, x) + " "
  {
    PostorderedOne("", Text(h, x));
  }

  /** Every composite form starts with a space and ends with its operator
      (a grouping with its empty name, so with a space). */
  lemma CompositeEndsWithOperator(h: Host, e: Expr)
    requires Printable(e) && !e.Literal?
    ensures Text(h, e)[0] == ' '
    ensures e.Binary? || e.Unary? ==> EndsWith(Text(h, e), e.operator.lexeme)
    ensures e.Grouping? ==> EndsWith(Text(h, e), " ")
  {
    match e
    case Binary(l, operator, r) =>
      BinaryShape(h, l, operator, r);
      assert Text(h, e) == (" " + Text(h, l) + " " + Text(h, r) + " ") + operator.lexeme;
    case Unary(operator, r) =>
      UnaryShape(h, operator, r);
      assert Text(h, e) == (" 0 " + Text(h, r) + " ") + operator.lexeme;
    case Grouping(x) =>
      GroupingShape(h, x);
  }

  /** A nil literal prints "nil"; any other literal prints its value's text. */
  lemma LiteralText(h: Host, v: Value)
    ensures Text(h, Literal(v)) == (if v == Nil then "nil" else ValueText(h, v))
  {
  }

  /** The demonstration `7 + 5` renders as ` 7 5 +`, given the host's text
      for the two numbers. */
  lemma Demonstration(h: Host, plus: Token)
    requires plus.lexeme == "+" && h.numberText(7.0) == "7" && h.numberText(5.0) == "5"
    ensures Printable(Binary(Literal(Num(7.0)), plus, Literal(Num(5.0)))) &&
            Text(h, Binary(Literal(Num(7.0)), plus, Literal(Num(5.0)))) == " 7 5 +"
  {
    BinaryShape(h, Literal(Num(7.0)), plus, Literal(Num(5.0)));
  }

  /** The demonstration `-99` renders as ` 0 99 -`: the synthetic operand is
      the Integer 0, printed "0" whatever text the host gives 0.0. */
  lemma UnaryDemonstration(h: Host, minus: Token)
    requires minus.lexeme == "-" && h.numberText(99.0) == "99"
    ensures Printable(Unary(minus, Literal(Num(99.0)))) &&
            Text(h, Unary(minus, Literal(Num(99.0)))) == " 0 99 -"
  {
    UnaryShape(h, minus, Literal(Num(99.0)));
  }
}
