/** The rewritten statement is handed on as text: when reading it back gives the rewritten tree. */
module PrintedRewrite {
  import opened Wrappers
  import opened Ascii
  import opened Decimals
  import opened Rewriter
  import opened SqlMeaning
  import opened RewritePreserves
  import opened Words
  import opened Printing

  // ----- the syntax of expressions -----

  /** A unary operator stands before or after its operand, or around it as parentheses do. */
  datatype Fixity = Before(level: nat) | After(level: nat) | Around

  /** The levels of the operators that the rules do not build, and the syntax of the expressions that the pass does not
      look into. */
  datatype Grammar = Grammar(binary: string -> nat, unary: string -> Fixity, opaque_: nat -> Syntax)

  const NOT_LEVEL := 15
  const LIKE_LEVEL := 19
  const LESS_LEVEL := 20
  const PLUS_LEVEL := 30
  const ACCESS_LEVEL := 100

  function BinaryLevel(g: Grammar, op: BinaryOp): nat {
    match op
    case Lt => LESS_LEVEL
    case Plus => PLUS_LEVEL
    case OtherBinary(symbol) => g.binary(symbol)
  }

  function FixityOf(g: Grammar, uop: UnaryOp): Fixity {
    match uop
    case Not => Before(NOT_LEVEL)
    case OtherUnary(symbol) => g.unary(symbol)
  }

  function TagOf(arg: Arg): Tag {
    match arg
    case Unnamed(_) => NoTag
    case Named(tag, _) => NameTag(tag)
    case Wildcard => StarTag
  }

  function StepOf(a: Accessor): Step {
    match a
    case Dot(_) => Dotted
    case Index(_) => Indexed
    case Slice(lower, upper, stride) => Sliced(lower.Present?, upper.Present?, stride.Present?)
  }

  function Tags(args: seq<Arg>): seq<Tag> { seq(|args|, i requires 0 <= i < |args| => TagOf(args[i])) }

  function Steps(chain: seq<Accessor>): seq<Step> { seq(|chain|, i requires 0 <= i < |chain| => StepOf(chain[i])) }

  function Syn(g: Grammar, e: Expr): Syntax
    decreases e, 1
  {
    match e
    case Column(name) => Form(ColumnWord(name), [])
    case Text(text) => Form(TextWord(text), [])
    case Number(digits) => Form(NumberWord(digits), [])
    case Binary(op, left, right) => Infix(BinaryWord(op), BinaryLevel(g, op), Syn(g, left), Syn(g, right))
    case Unary(uop, operand) => (
      match FixityOf(g, uop)
      case Before(level) => Prefix(UnaryWord(uop), level, Syn(g, operand))
      case After(level) => Postfix(UnaryWord(uop), level, Syn(g, operand), [])
      case Around => Form(UnaryWord(uop), [Syn(g, operand)]))
    case Function(path, plain, decoration, args) =>
      Form(CallWord(path, plain, decoration, Tags(args)), ArgsSyn(g, args))
    case Like(negated, anyOf, escaped, subject, pattern) =>
      var word := LikeWord(negated, anyOf, escaped);
      if escaped then Postfix(word, LIKE_LEVEL, Syn(g, subject), [Syn(g, pattern)])
      else Infix(word, LIKE_LEVEL, Syn(g, subject), Syn(g, pattern))
    case Extract(field, source) => Form(ExtractWord(field), [Syn(g, source)])
    case Case(condition, result, otherwise) =>
      Form(CaseWord, [Syn(g, condition), Syn(g, result), Syn(g, otherwise)])
    case Access(root, chain) => Postfix(AccessWord(Steps(chain)), ACCESS_LEVEL, Syn(g, root), ChainSyn(g, chain))
    case Opaque(id) => g.opaque_(id)
  }

  function ArgSyn(g: Grammar, arg: Arg): Syntax
    decreases arg
  {
    match arg
    case Unnamed(e) => Syn(g, e)
    case Named(_, e) => Syn(g, e)
    case Wildcard => Form(StarWord, [])
  }

  function ArgsSyn(g: Grammar, args: seq<Arg>): seq<Syntax>
    decreases args, 0
  {
    seq(|args|, i requires 0 <= i < |args| => ArgSyn(g, args[i]))
  }

  function BoundSyn(g: Grammar, b: Bound): Syntax
    decreases b
  {
    match b
    case Absent => Form(AbsentWord, [])
    case Present(e) => Syn(g, e)
  }

  function AccessorSyn(g: Grammar, a: Accessor): Syntax
    decreases a
  {
    match a
    case Dot(e) => Syn(g, e)
    case Index(e) => Syn(g, e)
    case Slice(lower, upper, stride) =>
      Form(SliceWord, [BoundSyn(g, lower), BoundSyn(g, upper), BoundSyn(g, stride)])
  }

  function ChainSyn(g: Grammar, chain: seq<Accessor>): seq<Syntax>
    decreases chain, 0
  {
    seq(|chain|, i requires 0 <= i < |chain| => AccessorSyn(g, chain[i]))
  }

  lemma {:induction false} AllFitAt(parts: seq<Syntax>)
    ensures AllFit(parts) <==> forall i | 0 <= i < |parts| :: Fits(parts[i], 0)
  {
    if parts != [] {
      AllFitAt(parts[1..]);
      assert forall i | 0 <= i < |parts| :: i == 0 || parts[i] == parts[1..][i - 1];
      assert forall i | 0 <= i < |parts| - 1 :: parts[1..][i] == parts[i + 1];
    }
  }

  // ----- where the splices bind tightly enough -----

  /** The right edge of the expression ends in a LIKE that becomes a NOT, which binds less tightly. */
  predicate Loosened(g: Grammar, e: Expr) {
    match e
    case Like(negated, _, _, _, _) => negated && LikeNeedle(e).Some?
    case Binary(_, _, right) => Loosened(g, right)
    case Unary(uop, operand) => FixityOf(g, uop).Before? && Loosened(g, operand)
    case _ => false
  }

  /** Wherever the pass puts an operand in another place, or a NOT in the place of a LIKE, the place takes it without
      parentheses: the index of `get` closes what is added to it, and no operator that binds tighter than NOT follows a
      LIKE that becomes one. */
  predicate Splices(g: Grammar, e: Expr)
    decreases e, 1
  {
    match e
    case Function(_, _, _, args) =>
      && (forall i | 0 <= i < |args| :: SplicesArg(g, args[i]))
      && (IsCall(e, "get", 2) ==> Closes(Syn(g, Rewrite(args[1].e).0), PLUS_LEVEL))
    case Binary(op, left, right) =>
      Splices(g, left) && Splices(g, right) && (Loosened(g, left) ==> BinaryLevel(g, op) <= NOT_LEVEL)
    case Unary(uop, operand) =>
      && Splices(g, operand)
      && (FixityOf(g, uop).After? && Loosened(g, operand) ==> FixityOf(g, uop).level <= NOT_LEVEL)
    case Access(root, chain) =>
      Splices(g, root) && !Loosened(g, root) && forall i | 0 <= i < |chain| :: SplicesAccessor(g, chain[i])
    case _ => true
  }

  predicate SplicesArg(g: Grammar, arg: Arg)
    decreases arg
  {
    arg.Wildcard? || Splices(g, arg.e)
  }

  predicate SplicesBound(g: Grammar, b: Bound)
    decreases b
  {
    b.Absent? || Splices(g, b.e)
  }

  predicate SplicesAccessor(g: Grammar, a: Accessor)
    decreases a
  {
    match a
    case Dot(e) => Splices(g, e)
    case Index(e) => Splices(g, e)
    case Slice(lower, upper, stride) => SplicesBound(g, lower) && SplicesBound(g, upper) && SplicesBound(g, stride)
  }

  // ----- the right edge after the pass -----

  /** What could follow the expression can still follow it, unless its right edge was loosened below that. */
  lemma {:induction false} EdgeAfter(g: Grammar, e: Expr, level: nat)
    requires Closes(Syn(g, e), level)
    ensures Closes(Syn(g, Rewrite(e).0), level) <==> !Loosened(g, e) || level <= NOT_LEVEL
    decreases e
  {
    hide RewriteArgs, RewriteChain, IsCall, IsCapture, LikeNeedle, ArgsSyn, ChainSyn, Tags, Steps;
    match e {
      case Binary(_, _, right) => EdgeAfter(g, right, level);
      case Unary(uop, operand) =>
        if FixityOf(g, uop).Before? {
          EdgeAfter(g, operand, level);
        }
      case _ =>
    }
  }

  // ----- the rules -----

  /** A generated call is a form of its arguments. */
  lemma CallSyn(g: Grammar, name: string, args: seq<Expr>)
    ensures Syn(g, Call(name, args)).Form? && |Syn(g, Call(name, args)).parts| == |args|
    ensures forall i | 0 <= i < |args| :: Syn(g, Call(name, args)).parts[i] == Syn(g, args[i])
  {
    var call := Call(name, args);
    assert forall i | 0 <= i < |args| :: ArgsSyn(g, call.args)[i] == ArgSyn(g, call.args[i]) == Syn(g, args[i]);
  }

  lemma CallFits(g: Grammar, name: string, args: seq<Expr>, level: nat)
    ensures Fits(Syn(g, Call(name, args)), level) <==> forall i | 0 <= i < |args| :: Fits(Syn(g, args[i]), 0)
  {
    hide Syn, Call;
    CallSyn(g, name, args);
    AllFitAt(Syn(g, Call(name, args)).parts);
  }

  lemma ThreeFit(word: Word, a: Syntax, b: Syntax, c: Syntax, level: nat)
    ensures Fits(Form(word, [a, b, c]), level) <==> Fits(a, 0) && Fits(b, 0) && Fits(c, 0)
  {
    var parts := [a, b, c];
    AllFitAt(parts);
    assert parts[0] == a && parts[1] == b && parts[2] == c;
  }

  /** The expression built for `get` fits exactly when its operands do and the index closes what is added to it. */
  lemma GetFits(g: Grammar, items: Expr, index: Expr, level: nat)
    ensures Fits(Syn(g, GetExpr(items, index)), level)
      <==> Fits(Syn(g, items), 0) && Fits(Syn(g, index), 0) && Closes(Syn(g, index), PLUS_LEVEL)
  {
    var below, next := Binary(Lt, index, Number("0")), Binary(Plus, index, Number("1"));
    var shifted := Case(below, Number("0"), next);
    ShiftedFits(g, index);
    hide Syn, Fits, Closes;
    CallFits(g, "array_element", [items, shifted], level);
    assert Fits(Syn(g, GetExpr(items, index)), level) <==> Fits(Syn(g, items), 0) && Fits(Syn(g, shifted), 0) by {
      assert [items, shifted][0] == items && [items, shifted][1] == shifted;
    }
  }

  lemma BinaryFits(g: Grammar, op: BinaryOp, left: Expr, digits: string)
    requires BinaryLevel(g, op) > 0
    ensures Fits(Syn(g, Binary(op, left, Number(digits))), 0)
      <==> Fits(Syn(g, left), 0) && Closes(Syn(g, left), BinaryLevel(g, op))
    ensures Fits(Syn(g, Number(digits)), 0)
  {
    TextFits(g, digits, BinaryLevel(g, op));
    TextFits(g, digits, 0);
  }

  lemma ShiftedFits(g: Grammar, index: Expr)
    ensures Fits(Syn(g, Case(Binary(Lt, index, Number("0")), Number("0"), Binary(Plus, index, Number("1")))), 0)
      <==> Fits(Syn(g, index), 0) && Closes(Syn(g, index), PLUS_LEVEL)
  {
    var below, next := Binary(Lt, index, Number("0")), Binary(Plus, index, Number("1"));
    ThreeFit(CaseWord, Syn(g, below), Syn(g, Number("0")), Syn(g, next), 0);
    BinaryFits(g, Lt, index, "0");
    BinaryFits(g, Plus, index, "1");
    if Closes(Syn(g, index), PLUS_LEVEL) {
      ClosesBelow(Syn(g, index), PLUS_LEVEL, LESS_LEVEL);
    }
  }

  /** What a rule builds fits exactly when the arguments of the call do, and for `get` its index closes. */
  lemma RuleFits(g: Grammar, e: Expr, level: nat)
    requires e.Function? && CallRule(e).Some?
    ensures Fits(Syn(g, CallRule(e).value), level) <==>
      && (forall i | 0 <= i < |e.args| :: Fits(ArgSyn(g, e.args[i]), 0))
      && (IsCall(e, "get", 2) ==> Closes(Syn(g, e.args[1].e), PLUS_LEVEL))
  {
    hide SameName, Fits, CaptureIndex, Closes, GetExpr, ElementAtExpr, CaptureExpr;
    forall i | 0 <= i < |e.args| ensures e.args[i].Unnamed? && ArgSyn(g, e.args[i]) == Syn(g, e.args[i].e) {
    }
    if IsCall(e, "if", 3) {
      ThreeFit(CaseWord, Syn(g, e.args[0].e), Syn(g, e.args[1].e), Syn(g, e.args[2].e), level);
    } else if IsCall(e, "get", 2) {
      GetFits(g, e.args[0].e, e.args[1].e, level);
    } else if IsCall(e, "element_at", 2) {
      ElementAtFits(g, e.args[0].e, e.args[1].e, level);
    } else {
      CaptureFits(g, e.args[0].e, e.args[1].e.text, CaptureIndex(e.args[2].e.text).value, level);
      TextFits(g, e.args[1].e.text, 0);
      TextFits(g, e.args[2].e.text, 0);
    }
  }

  lemma TextFits(g: Grammar, text: string, level: nat)
    ensures Fits(Syn(g, Text(text)), level) && Fits(Syn(g, Number(text)), level)
  {
  }

  lemma ElementAtFits(g: Grammar, m: Expr, key: Expr, level: nat)
    ensures Fits(Syn(g, ElementAtExpr(m, key)), level) <==> Fits(Syn(g, m), 0) && Fits(Syn(g, key), 0)
  {
    hide Syn, Fits, Call;
    var extracted := Call("map_extract", [m, key]);
    CallFits(g, "map_extract", [m, key], 0);
    CallFits(g, "array_element", [extracted, Number("1")], level);
    TextFits(g, "1", 0);
    assert [m, key][0] == m && [m, key][1] == key;
    assert [extracted, Number("1")][0] == extracted && [extracted, Number("1")][1] == Number("1");
  }

  lemma CaptureFits(g: Grammar, source: Expr, pattern: string, group: nat, level: nat)
    ensures Fits(Syn(g, CaptureExpr(source, pattern, group)), level) <==> Fits(Syn(g, source), 0)
  {
    hide Syn, Fits, Call;
    var args := [source, Text(pattern), Number(Decimal(group))];
    CallFits(g, REGEXP_REPLACE_CAPTURE_UDF, args, level);
    TextFits(g, pattern, 0);
    TextFits(g, Decimal(group), 0);
    assert args[0] == source && args[1] == Text(pattern) && args[2] == Number(Decimal(group));
  }

  // ----- the pass -----

  lemma {:induction false} ChainAt(chain: seq<Accessor>, named: bool, i: nat)
    requires i < |chain|
    ensures RewriteChain(chain, named).0[i] == RewriteAccessor(chain[i], named).0
    decreases |chain|
  {
    hide RewriteAccessor;
    if i < |chain| - 1 {
      ChainAt(chain[..|chain| - 1], named, i);
    }
  }

  /** An expression that fits its place still fits it once rewritten, exactly when the splices bind tightly enough. */
  lemma {:induction false} RewrittenFits(g: Grammar, e: Expr, level: nat)
    requires Fits(Syn(g, e), level)
    ensures Fits(Syn(g, Rewrite(e).0), level) <==> Splices(g, e)
    decreases e, 1
  {
    hide CallRule, IsCall, IsCapture, LikeNeedle, RewriteArgs, RewriteChain, AllFit, Closes, ArgsSyn, ChainSyn, Tags,
      Steps, ContainsExpr, Call;
    match e {
      case Function(_, _, _, _) =>
        FunctionFits(g, e, level);
      case Binary(op, left, right) =>
        RewrittenFits(g, left, level);
        RewrittenFits(g, right, BinaryLevel(g, op));
        EdgeAfter(g, left, BinaryLevel(g, op));
      case Unary(uop, operand) =>
        match FixityOf(g, uop) {
          case Before(own) => RewrittenFits(g, operand, own);
          case After(own) =>
            RewrittenFits(g, operand, level);
            EdgeAfter(g, operand, own);
          case Around =>
            OneFits(UnaryWord(uop), Syn(g, operand), level);
            OneFits(UnaryWord(uop), Syn(g, Rewrite(operand).0), level);
            RewrittenFits(g, operand, 0);
        }
      case Like(negated, _, _, subject, pattern) =>
        if LikeNeedle(e).Some? {
          LikeFits(g, e, level);
        }
      case Extract(field, source) =>
        if field.Minute? || field.Minutes? {
          OneFits(ExtractWord(field), Syn(g, source), level);
          CallFits(g, EXTRACT_MINUTE_UDF, [source], level);
          assert [source][0] == source;
        }
      case Access(root, chain) =>
        RewrittenFits(g, root, level);
        EdgeAfter(g, root, ACCESS_LEVEL);
        ChainFits(g, chain, IsCall(root, "get", 2));
      case _ =>
    }
  }

  lemma OneFits(word: Word, e: Syntax, level: nat)
    ensures Fits(Form(word, [e]), level) <==> Fits(e, 0)
  {
    AllFitAt([e]);
    assert [e][0] == e;
  }

  lemma LikeFits(g: Grammar, e: Expr, level: nat)
    requires e.Like? && LikeNeedle(e).Some? && Fits(Syn(g, e), level)
    ensures Fits(Syn(g, ContainsExpr(e.subject, LikeNeedle(e).value, e.negated)), level)
  {
    hide Call, Closes;
    var args := [e.subject, Text(LikeNeedle(e).value)];
    FitsBelow(Syn(g, e.subject), level, 0);
    CallFits(g, "contains", args, level);
    CallFits(g, "contains", args, NOT_LEVEL);
    assert args[0] == e.subject && args[1] == Text(LikeNeedle(e).value);
    TextFits(g, LikeNeedle(e).value, 0);
  }

  lemma {:induction false} FunctionFits(g: Grammar, e: Expr, level: nat)
    requires e.Function? && Fits(Syn(g, e), level)
    ensures Fits(Syn(g, Rewrite(e).0), level) <==> Splices(g, e)
    decreases e, 0
  {
    hide CallRule, IsCall, IsCapture, RewriteArgs, Closes, Tags, RewriteArg, ArgSyn, SplicesArg;
    var f := Inner(e);
    AllFitAt(ArgsSyn(g, e.args));
    AllFitAt(ArgsSyn(g, f.args));
    forall i | 0 <= i < |e.args| ensures Fits(ArgSyn(g, f.args[i]), 0) <==> SplicesArg(g, e.args[i]) {
      assert Fits(ArgsSyn(g, e.args)[i], 0);
      RewriteArgAt(e.args, i);
      ArgFits(g, e.args[i]);
    }
    InnerKind(e);
    if IsCall(e, "get", 2) {
      GetIndex(e);
    }
    if CallRule(f).Some? {
      RuleFits(g, f, level);
    } else {
      NoGetLeft(f);
      assert forall i | 0 <= i < |f.args| :: ArgsSyn(g, f.args)[i] == ArgSyn(g, f.args[i]);
    }
  }

  lemma NoGetLeft(f: Expr)
    requires f.Function? && CallRule(f).None?
    ensures !IsCall(f, "get", 2)
  {
  }

  lemma GetIndex(e: Expr)
    requires e.Function? && IsCall(e, "get", 2)
    ensures Inner(e).args[1].Unnamed? && Inner(e).args[1].e == Rewrite(e.args[1].e).0
  {
    hide Rewrite, RewriteArgs;
    UnnamedKept(e.args);
  }

  lemma {:induction false} ArgFits(g: Grammar, arg: Arg)
    requires Fits(ArgSyn(g, arg), 0)
    ensures Fits(ArgSyn(g, RewriteArg(arg).0), 0) <==> SplicesArg(g, arg)
    decreases arg
  {
    hide Rewrite, Syn, Splices, Fits;
    match arg {
      case Unnamed(e) => RewrittenFits(g, e, 0);
      case Named(_, e) => RewrittenFits(g, e, 0);
      case Wildcard =>
    }
  }

  lemma {:induction false} BoundFits(g: Grammar, b: Bound)
    requires Fits(BoundSyn(g, b), 0)
    ensures Fits(BoundSyn(g, RewriteBound(b).0), 0) <==> SplicesBound(g, b)
    decreases b
  {
    hide Rewrite, Syn, Splices, Fits;
    if b.Present? {
      RewrittenFits(g, b.e, 0);
    }
  }

  lemma {:induction false} AccessorFits(g: Grammar, a: Accessor, named: bool)
    requires Fits(AccessorSyn(g, a), 0)
    ensures Fits(AccessorSyn(g, RewriteAccessor(a, named).0), 0) <==> SplicesAccessor(g, a)
    decreases a
  {
    hide Rewrite, Syn, Fits, BoundSyn, RewriteBound, SplicesBound;
    match a {
      case Dot(e) =>
        RewrittenFits(g, e, 0);
        if named && e.Column? {
          TextFits(g, e.name, 0);
        }
      case Index(e) => RewrittenFits(g, e, 0);
      case Slice(lower, upper, stride) =>
        ThreeFit(SliceWord, BoundSyn(g, lower), BoundSyn(g, upper), BoundSyn(g, stride), 0);
        ThreeFit(SliceWord, BoundSyn(g, RewriteBound(lower).0), BoundSyn(g, RewriteBound(upper).0),
                 BoundSyn(g, RewriteBound(stride).0), 0);
        BoundFits(g, lower);
        BoundFits(g, upper);
        BoundFits(g, stride);
    }
  }

  lemma {:induction false} ChainFits(g: Grammar, chain: seq<Accessor>, named: bool)
    requires AllFit(ChainSyn(g, chain))
    ensures AllFit(ChainSyn(g, RewriteChain(chain, named).0)) <==>
      forall i | 0 <= i < |chain| :: SplicesAccessor(g, chain[i])
    decreases chain, 0
  {
    hide RewriteChain, RewriteAccessor, AccessorSyn, SplicesAccessor, AllFit, Fits;
    var rewritten := RewriteChain(chain, named).0;
    AllFitAt(ChainSyn(g, chain));
    AllFitAt(ChainSyn(g, rewritten));
    forall i | 0 <= i < |chain| ensures Fits(ChainSyn(g, rewritten)[i], 0) <==> SplicesAccessor(g, chain[i]) {
      assert Fits(ChainSyn(g, chain)[i], 0);
      ChainAt(chain, named, i);
      AccessorFits(g, chain[i], named);
    }
  }

  /** The statement that is handed on reads back as the rewritten tree, exactly when the splices of the one it was read
      from bind tightly enough. */
  lemma RewriteReadsBack(g: Grammar, ts: seq<Token>, e: Expr)
    requires Read(ts) == Some(Syn(g, e))
    ensures Read(Print(Syn(g, Rewrite(e).0))) == Some(Syn(g, Rewrite(e).0)) <==> Splices(g, e)
  {
    hide Read, Print, Syn, Splices, Fits, Rewrite;
    ReadPrints(ts);
    RewrittenFits(g, e, 0);
    ReadsBack(Syn(g, Rewrite(e).0));
  }

  // ----- the expression that is read from the statement -----

  /** No other expression is spelled like one that the pass does not look into. */
  ghost predicate Distinct(g: Grammar) {
    forall id: nat, e: Expr :: Syn(g, e) == g.opaque_(id) ==> e == Opaque(id)
  }

  lemma OpaqueAlone(g: Grammar, e: Expr, f: Expr)
    requires Distinct(g) && Syn(g, e) == Syn(g, f) && (e.Opaque? || f.Opaque?)
    ensures e == f
  {
    if e.Opaque? {
      assert Syn(g, f) == g.opaque_(e.id);
    } else {
      assert Syn(g, e) == g.opaque_(f.id);
    }
  }

  lemma FormParts(a: Syntax, b: Syntax)
    requires a == b && (a.Form? || a.Postfix?)
    ensures |a.parts| == |b.parts| && forall i | 0 <= i < |a.parts| :: a.parts[i] == b.parts[i]
  {
  }

  /** The syntax of an expression is that of no other. */
  lemma {:induction false} SameSyntax(g: Grammar, e: Expr, f: Expr)
    requires Distinct(g) && Syn(g, e) == Syn(g, f)
    ensures e == f
    decreases e, 1
  {
    if e.Opaque? || f.Opaque? {
      OpaqueAlone(g, e, f);
    } else {
      hide Distinct, BinaryLevel, ArgsSyn, ChainSyn, Tags, Steps;
      var a, b := Syn(g, e), Syn(g, f);
      if a.Form? || a.Postfix? {
        FormParts(a, b);
      }
      match e {
        case Binary(_, left, right) =>
          SameSyntax(g, left, f.left);
          SameSyntax(g, right, f.right);
        case Unary(_, operand) =>
          assert f.Unary?;
          SameSyntax(g, operand, f.operand);
        case Function(_, _, _, args) =>
          assert f.Function?;
          SameArgs(g, args, f.args);
        case Like(_, _, _, subject, pattern) =>
          assert f.Like?;
          SameSyntax(g, subject, f.subject);
          SameSyntax(g, pattern, f.pattern);
        case Extract(_, source) =>
          assert f.Extract?;
          SameSyntax(g, source, f.source);
        case Case(condition, result, otherwise) =>
          assert f.Case?;
          SameSyntax(g, condition, f.condition);
          SameSyntax(g, result, f.result);
          SameSyntax(g, otherwise, f.otherwise);
        case Access(root, chain) =>
          assert f.Access?;
          SameSyntax(g, root, f.root);
          SameChain(g, chain, f.chain);
        case _ =>
      }
    }
  }

  lemma {:induction false} SameArgs(g: Grammar, args: seq<Arg>, others: seq<Arg>)
    requires Distinct(g) && Tags(args) == Tags(others) && ArgsSyn(g, args) == ArgsSyn(g, others)
    ensures args == others
    decreases args, 0
  {
    hide Distinct, Syn;
    assert |Tags(args)| == |args| && |Tags(others)| == |others|;
    forall i | 0 <= i < |args| ensures args[i] == others[i] {
      assert Tags(args)[i] == TagOf(args[i]) && Tags(others)[i] == TagOf(others[i]);
      assert ArgsSyn(g, args)[i] == ArgSyn(g, args[i]) && ArgsSyn(g, others)[i] == ArgSyn(g, others[i]);
      SameArg(g, args[i], others[i]);
    }
  }

  lemma {:induction false} SameArg(g: Grammar, arg: Arg, other: Arg)
    requires Distinct(g) && TagOf(arg) == TagOf(other) && ArgSyn(g, arg) == ArgSyn(g, other)
    ensures arg == other
    decreases arg
  {
    hide Distinct, Syn;
    if !arg.Wildcard? {
      SameSyntax(g, arg.e, other.e);
    }
  }

  lemma {:induction false} SameBound(g: Grammar, b: Bound, other: Bound)
    requires Distinct(g) && b.Present? == other.Present? && BoundSyn(g, b) == BoundSyn(g, other)
    ensures b == other
    decreases b
  {
    hide Distinct, Syn;
    if b.Present? {
      SameSyntax(g, b.e, other.e);
    }
  }

  lemma {:induction false} SameChain(g: Grammar, chain: seq<Accessor>, others: seq<Accessor>)
    requires Distinct(g) && Steps(chain) == Steps(others) && ChainSyn(g, chain) == ChainSyn(g, others)
    ensures chain == others
    decreases chain, 0
  {
    hide Distinct, Syn, AccessorSyn;
    assert |Steps(chain)| == |chain| && |Steps(others)| == |others|;
    forall i | 0 <= i < |chain| ensures chain[i] == others[i] {
      assert Steps(chain)[i] == StepOf(chain[i]) && Steps(others)[i] == StepOf(others[i]);
      assert ChainSyn(g, chain)[i] == AccessorSyn(g, chain[i]) && ChainSyn(g, others)[i] == AccessorSyn(g, others[i]);
      SameAccessor(g, chain[i], others[i]);
    }
  }

  lemma {:induction false} SameAccessor(g: Grammar, a: Accessor, other: Accessor)
    requires Distinct(g) && StepOf(a) == StepOf(other) && AccessorSyn(g, a) == AccessorSyn(g, other)
    ensures a == other
    decreases a
  {
    hide Distinct, Syn, BoundSyn;
    match a {
      case Dot(e) => SameSyntax(g, e, other.e);
      case Index(e) => SameSyntax(g, e, other.e);
      case Slice(lower, upper, stride) =>
        FormParts(AccessorSyn(g, a), AccessorSyn(g, other));
        SameBound(g, lower, other.lower);
        SameBound(g, upper, other.upper);
        SameBound(g, stride, other.stride);
    }
  }

  /** From the statement that is handed on, the rewritten expression is read and no other, exactly when the splices bind
      tightly enough. */
  lemma RewrittenIsRead(g: Grammar, ts: seq<Token>, e: Expr, f: Expr)
    requires Distinct(g) && Read(ts) == Some(Syn(g, e))
    requires Read(Print(Syn(g, Rewrite(e).0))) == Some(Syn(g, f))
    ensures f == Rewrite(e).0 <==> Splices(g, e)
  {
    hide Distinct, Read, Print, Syn, Splices, Rewrite;
    RewriteReadsBack(g, ts, e);
    if Splices(g, e) {
      SameSyntax(g, f, Rewrite(e).0);
    }
  }

  /** Whatever the engine reads from the statement that is handed on has the value, NULL or error of the expression that
      was given, where the splices bind tightly enough and the rules are within their conditions. */
  lemma StatementPreservesMeaning(g: Grammar, engine: Engine, ts: seq<Token>, e: Expr, f: Expr)
    requires Distinct(g) && Read(ts) == Some(Syn(g, e)) && Splices(g, e) && Safe(engine, e)
    requires Read(Print(Syn(g, Rewrite(e).0))) == Some(Syn(g, f))
    ensures Eval(engine, f) == Eval(engine, e)
  {
    hide Distinct, Read, Print, Syn, Splices, Rewrite, Safe, Eval;
    RewrittenIsRead(g, ts, e, f);
    RewritePreservesMeaning(engine, e);
  }
}
