/** Two statements whose rewritten text reads back as something else, with another result. */
module Misreadings {
  import opened Ascii
  import opened LikePatterns
  import opened Wrappers
  import opened Rewriter
  import opened SqlMeaning
  import opened RewriteMeaning
  import opened RewritePreserves
  import opened Words
  import opened Printing
  import opened PrintedRewrite

  lemma {:induction false} SamePrints(parts: seq<Syntax>, others: seq<Syntax>)
    requires |parts| == |others| && forall i | 0 <= i < |parts| :: Print(parts[i]) == Print(others[i])
    ensures PrintParts(parts) == PrintParts(others)
  {
    if parts != [] {
      hide Print;
      forall i | 0 <= i < |parts| - 1 ensures Print(parts[1..][i]) == Print(others[1..][i]) {
        assert Print(parts[i + 1]) == Print(others[i + 1]);
      }
      SamePrints(parts[1..], others[1..]);
    }
  }

  /** Without parentheses, nothing tells how two operators are grouped. */
  lemma Regrouped(v: Word, m: nat, w: Word, n: nat, a: Syntax, b: Syntax, c: Syntax)
    ensures Print(Infix(w, n, Infix(v, m, a, b), c)) == Print(Infix(v, m, a, Infix(w, n, b, c)))
    ensures Print(Postfix(w, n, Prefix(v, m, a), [])) == Print(Prefix(v, m, Postfix(w, n, a, [])))
  {
  }

  const MASK := OtherBinary("&")
  const IS_NULL := OtherUnary("IS NULL")
  const MASK_LEVEL := 23
  const IS_LEVEL := 17

  const MASKED := Binary(MASK, Column("x"), Number("1"))

  /** `get(a, x & 1)` */
  const GET_MASKED := Function(["get"], true, 0, [Unnamed(Column("a")), Unnamed(MASKED)])

  /** `array_element(a, CASE WHEN x & 1 < 0 THEN 0 ELSE x & (1 + 1) END)` */
  const GET_MISREAD := Call("array_element", [Column("a"), Case(Binary(Lt, MASKED, Number("0")), Number("0"),
    Binary(MASK, Column("x"), Binary(Plus, Number("1"), Number("1"))))])

  /** `x NOT LIKE '%a%' IS NULL` */
  const UNLIKE_NULL := Unary(IS_NULL, Like(true, false, false, Column("x"), Text("%a%")))

  const CONTAINS_A := Call("contains", [Column("x"), Text("a")])

  /** `NOT (contains(x, 'a') IS NULL)` */
  const UNLIKE_MISREAD := Unary(Not, Unary(IS_NULL, CONTAINS_A))

  lemma NeedleA()
    ensures NeedleOf("%a%") == Some("a")
  {
    assert "%a%"[1..2] == "a";
  }

  lemma UnlikeRewritten()
    ensures Rewrite(UNLIKE_NULL).0 == Unary(IS_NULL, Unary(Not, CONTAINS_A))
  {
    hide NeedleOf;
    NeedleA();
  }

  /** A NOT that takes the place of a LIKE takes the IS NULL after it along, and the statement gives the opposite
      result. */
  lemma UnlikeMisread(g: Grammar, engine: Engine, s: string)
    requires g.unary("IS NULL") == After(IS_LEVEL)
    requires engine.column("x") == Ok(Chars(s))
    requires forall b :: engine.unary(IS_NULL, Ok(Bool(b))) == Ok(Bool(false))
    ensures Read(Print(Syn(g, UNLIKE_NULL))) == Some(Syn(g, UNLIKE_NULL)) && !Splices(g, UNLIKE_NULL)
    ensures Read(Print(Syn(g, Rewrite(UNLIKE_NULL).0))) == Some(Syn(g, UNLIKE_MISREAD))
    ensures Eval(engine, UNLIKE_NULL) == Ok(Bool(false)) && Eval(engine, UNLIKE_MISREAD) == Ok(Bool(true))
  {
    UnlikeRewritten();
    UnlikeSyntax(g);
    UnlikeValues(engine, s);
  }

  lemma UnlikeSyntax(g: Grammar)
    requires g.unary("IS NULL") == After(IS_LEVEL)
    ensures Read(Print(Syn(g, UNLIKE_NULL))) == Some(Syn(g, UNLIKE_NULL)) && !Splices(g, UNLIKE_NULL)
    ensures Read(Print(Syn(g, Unary(IS_NULL, Unary(Not, CONTAINS_A))))) == Some(Syn(g, UNLIKE_MISREAD))
  {
    hide Read, Print, NeedleOf, Call;
    NeedleA();
    UnlikeFits(g);
    ReadsBack(Syn(g, UNLIKE_NULL));
    var contains := Syn(g, CONTAINS_A);
    ContainsFits(g);
    Regrouped(UnaryWord(Not), NOT_LEVEL, UnaryWord(IS_NULL), IS_LEVEL, contains, contains, contains);
    MisreadFits(contains, UnaryWord(Not), UnaryWord(IS_NULL));
    ReadsBack(Syn(g, UNLIKE_MISREAD));
  }

  lemma MisreadFits(e: Syntax, v: Word, w: Word)
    requires e.Form? && Fits(e, NOT_LEVEL)
    ensures Fits(Prefix(v, NOT_LEVEL, Postfix(w, IS_LEVEL, e, [])), 0)
  {
    AllFitAt([]);
  }

  lemma UnlikeFits(g: Grammar)
    requires g.unary("IS NULL") == After(IS_LEVEL)
    ensures Fits(Syn(g, UNLIKE_NULL), 0)
  {
    TextFits(g, "%a%", LIKE_LEVEL);
  }

  lemma ContainsFits(g: Grammar)
    ensures Syn(g, CONTAINS_A).Form? && forall level :: Fits(Syn(g, CONTAINS_A), level)
  {
    var args := [Column("x"), Text("a")];
    CallSyn(g, "contains", args);
    forall level: nat ensures Fits(Syn(g, CONTAINS_A), level) {
      CallFits(g, "contains", args, level);
      TextFits(g, "a", 0);
    }
  }

  lemma UnlikeValues(engine: Engine, s: string)
    requires engine.column("x") == Ok(Chars(s))
    requires forall b :: engine.unary(IS_NULL, Ok(Bool(b))) == Ok(Bool(false))
    ensures Eval(engine, UNLIKE_NULL) == Ok(Bool(false)) && Eval(engine, UNLIKE_MISREAD) == Ok(Bool(true))
  {
    hide BuiltinNamed, BuiltinOf, Matches, Contains;
    assert BuiltinNamed("contains") == ContainsFn by { Names(); }
    CallMeaning(engine, "contains", [Column("x"), Text("a")], ContainsFn);
  }

  lemma CallPrints(g: Grammar, name: string, args: seq<Expr>, others: seq<Expr>)
    requires |args| == |others| && forall i | 0 <= i < |args| :: Print(Syn(g, args[i])) == Print(Syn(g, others[i]))
    ensures Print(Syn(g, Call(name, args))) == Print(Syn(g, Call(name, others)))
  {
    var a, b := Syn(g, Call(name, args)), Syn(g, Call(name, others));
    assert Tags(Call(name, args).args) == Tags(Call(name, others).args);
    CallSyn(g, name, args);
    CallSyn(g, name, others);
    SamePrints(a.parts, b.parts);
  }

  const BELOW_ZERO := Binary(Lt, MASKED, Number("0"))
  const PLUS_ONE := Binary(Plus, MASKED, Number("1"))
  const MASKED_MORE := Binary(MASK, Column("x"), Binary(Plus, Number("1"), Number("1")))

  lemma GetMaskedRewritten()
    ensures Rewrite(GET_MASKED).0
      == Call("array_element", [Column("a"), Case(BELOW_ZERO, Number("0"), PLUS_ONE)])
    ensures IsCall(GET_MASKED, "get", 2)
  {
    var args := GET_MASKED.args;
    forall i | 0 <= i < 2 ensures RewriteArgs(args).0[i] == args[i] {
      RewriteArgAt(args, i);
    }
  }

  /** An index that binds less tightly than + is taken apart by the one that is added to it, and the statement gives
      another element. */
  lemma GetMisread(g: Grammar, engine: Engine, items: seq<Value>)
    requires g.binary("&") == MASK_LEVEL
    requires engine.column("a") == Ok(Array(items)) && |items| >= 2 && engine.column("x") == Ok(Int(2))
    requires engine.binary(MASK, Ok(Int(2)), Ok(Int(1))) == Ok(Int(0))
    requires engine.binary(MASK, Ok(Int(2)), Ok(Int(2))) == Ok(Int(2))
    ensures Read(Print(Syn(g, GET_MASKED))) == Some(Syn(g, GET_MASKED)) && !Splices(g, GET_MASKED)
    ensures Read(Print(Syn(g, Rewrite(GET_MASKED).0))) == Some(Syn(g, GET_MISREAD))
    ensures Eval(engine, GET_MASKED) == Ok(items[0]) && Eval(engine, GET_MISREAD) == Ok(items[1])
  {
    GetMaskedRewritten();
    GetMaskedSyntax(g);
    GetMisreadSyntax(g);
    GetMaskedValue(engine, items);
    GetMisreadValue(engine, items);
  }

  lemma LeafFits(g: Grammar, name: string, digits: string, level: nat)
    ensures Fits(Syn(g, Column(name)), level) && Fits(Syn(g, Number(digits)), level)
  {
  }

  lemma MaskedFits(g: Grammar)
    requires g.binary("&") == MASK_LEVEL
    ensures Fits(Syn(g, MASKED), 0) && !Closes(Syn(g, MASKED), PLUS_LEVEL)
    ensures Fits(Syn(g, BELOW_ZERO), 0) && Fits(Syn(g, MASKED_MORE), 0)
  {
    LeafFits(g, "x", "1", 0);
    LeafFits(g, "x", "1", MASK_LEVEL);
    LeafFits(g, "x", "1", PLUS_LEVEL);
    LeafFits(g, "x", "0", LESS_LEVEL);
  }

  lemma GetMaskedSyntax(g: Grammar)
    requires g.binary("&") == MASK_LEVEL
    ensures Read(Print(Syn(g, GET_MASKED))) == Some(Syn(g, GET_MASKED)) && !Splices(g, GET_MASKED)
  {
    MaskedFits(g);
    LeafFits(g, "a", "", 0);
    GetMaskedRewritten();
    hide Read, Print, Fits, Closes;
    var parts := ArgsSyn(g, GET_MASKED.args);
    AllFitAt(parts);
    assert parts[0] == ArgSyn(g, GET_MASKED.args[0]) && parts[1] == ArgSyn(g, GET_MASKED.args[1]);
    FormFits(CallWord(["get"], true, 0, Tags(GET_MASKED.args)), parts, 0);
    ReadsBack(Syn(g, GET_MASKED));
    assert Rewrite(MASKED).0 == MASKED;
  }

  lemma FormFits(word: Word, parts: seq<Syntax>, level: nat)
    ensures Fits(Form(word, parts), level) <==> AllFit(parts)
  {
  }

  lemma GetMisreadSyntax(g: Grammar)
    requires g.binary("&") == MASK_LEVEL
    ensures Read(Print(Syn(g, Call("array_element", [Column("a"), Case(BELOW_ZERO, Number("0"), PLUS_ONE)]))))
      == Some(Syn(g, GET_MISREAD))
  {
    MaskedFits(g);
    LeafFits(g, "a", "0", 0);
    var rewritten, misread := Case(BELOW_ZERO, Number("0"), PLUS_ONE), Case(BELOW_ZERO, Number("0"), MASKED_MORE);
    CasePrints(g);
    ThreeFit(CaseWord, Syn(g, BELOW_ZERO), Syn(g, Number("0")), Syn(g, MASKED_MORE), 0);
    hide Read, Print, Fits, Closes;
    var args := [Column("a"), misread];
    assert args[0] == Column("a") && args[1] == misread;
    CallFits(g, "array_element", args, 0);
    CallPrints(g, "array_element", [Column("a"), rewritten], args);
    ReadsBack(Syn(g, GET_MISREAD));
  }

  lemma CasePrints(g: Grammar)
    requires g.binary("&") == MASK_LEVEL
    ensures Print(Syn(g, Case(BELOW_ZERO, Number("0"), PLUS_ONE)))
      == Print(Syn(g, Case(BELOW_ZERO, Number("0"), MASKED_MORE)))
  {
    var x, one := Syn(g, Column("x")), Syn(g, Number("1"));
    Regrouped(BinaryWord(MASK), MASK_LEVEL, BinaryWord(Plus), PLUS_LEVEL, x, one, one);
    SamePrints([Syn(g, BELOW_ZERO), Syn(g, Number("0")), Syn(g, PLUS_ONE)],
               [Syn(g, BELOW_ZERO), Syn(g, Number("0")), Syn(g, MASKED_MORE)]);
  }

  lemma MaskedValues(engine: Engine)
    requires engine.column("x") == Ok(Int(2))
    requires engine.binary(MASK, Ok(Int(2)), Ok(Int(1))) == Ok(Int(0))
    requires engine.binary(MASK, Ok(Int(2)), Ok(Int(2))) == Ok(Int(2))
    ensures Eval(engine, MASKED) == Ok(Int(0)) && Eval(engine, BELOW_ZERO) == Ok(Bool(false))
    ensures Eval(engine, MASKED_MORE) == Ok(Int(2))
  {
    Numerals(engine);
    hide NumberValue;
    assert Eval(engine, Number("1")) == Ok(Int(1)) && Eval(engine, Number("0")) == Ok(Int(0));
    assert Eval(engine, Binary(Plus, Number("1"), Number("1"))) == Ok(Int(2));
  }

  lemma GetMaskedValue(engine: Engine, items: seq<Value>)
    requires engine.column("a") == Ok(Array(items)) && |items| >= 1 && engine.column("x") == Ok(Int(2))
    requires engine.binary(MASK, Ok(Int(2)), Ok(Int(1))) == Ok(Int(0))
    requires engine.binary(MASK, Ok(Int(2)), Ok(Int(2))) == Ok(Int(2))
    ensures Eval(engine, GET_MASKED) == Ok(items[0])
  {
    MaskedValues(engine);
    assert Eval(engine, Column("a")) == Ok(Array(items));
    assert Eval(engine, GET_MASKED) == CallValue(engine, ["get"], true, 0, EvalArgs(engine, GET_MASKED.args));
    hide Eval, EvalArgs, BuiltinNamed, BuiltinOf, SameName, RegexpReplace, ReplaceCapture;
    assert IsCall(GET_MASKED, "get", 2) && BuiltinNamed("get") == GetFn by {
      GetMaskedRewritten();
      Names();
    }
    BuiltinCall(engine, GET_MASKED, "get", GetFn);
  }

  lemma ElementMeaning(engine: Engine, items: Expr, index: Expr)
    ensures Eval(engine, Call("array_element", [items, index]))
      == Strict2(Eval(engine, items), Eval(engine, index), ArrayElement)
  {
    hide Eval, BuiltinNamed, BuiltinOf, ArrayElement, Call;
    assert BuiltinNamed("array_element") == ArrayElementFn by { Names(); }
    CallMeaning(engine, "array_element", [items, index], ArrayElementFn);
  }

  lemma GetMisreadValue(engine: Engine, items: seq<Value>)
    requires engine.column("a") == Ok(Array(items)) && |items| >= 2 && engine.column("x") == Ok(Int(2))
    requires engine.binary(MASK, Ok(Int(2)), Ok(Int(1))) == Ok(Int(0))
    requires engine.binary(MASK, Ok(Int(2)), Ok(Int(2))) == Ok(Int(2))
    ensures Eval(engine, GET_MISREAD) == Ok(items[1])
  {
    MaskedValues(engine);
    var shifted := Case(BELOW_ZERO, Number("0"), MASKED_MORE);
    assert Eval(engine, shifted) == Branch(Ok(Bool(false)), Eval(engine, Number("0")), Ok(Int(2)));
    assert Eval(engine, Column("a")) == Ok(Array(items));
    hide Eval, Call;
    ElementMeaning(engine, Column("a"), shifted);
  }
}
