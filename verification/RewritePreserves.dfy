/** The pass preserves meaning on every expression, with its rules nested in one another in any way. */
module RewritePreserves {
  import opened Ascii
  import opened Rewriter
  import opened SqlMeaning
  import opened RewriteMeaning

  // ----- where the rules are sound -----

  /** What a call's rule asks of its arguments on this row. */
  predicate SafeCall(g: Engine, e: Expr)
    requires e.Function?
  {
    && (IsCall(e, "get", 2) ==>
          Countable(Eval(g, e.args[0].e)) && IndexTyped(g, Eval(g, e.args[0].e), Eval(g, e.args[1].e)))
    && (IsCall(e, "element_at", 2) ==>
          var m, key := Eval(g, e.args[0].e), Eval(g, e.args[1].e); !(m.Ok? && m.v.Array? && key.Ok? && key.v.Int?))
    && (IsCapture(e) ==> Capturing(e.args[2].e.text))
  }

  /** On this row every rule that applies is within its conditions. A branch of `if` that is not taken is exempt, and
      so are the operands that the pass does not look into. */
  predicate Safe(g: Engine, e: Expr)
    decreases e, 1
  {
    match e
    case Function(_, _, _, args) =>
      if IsCall(e, "if", 3) then
        && SafeArg(g, args[0])
        && match Eval(g, args[0].e)
           case Ok(Bool(b)) => if b then SafeArg(g, args[1]) else SafeArg(g, args[2])
           case Ok(Null) => SafeArg(g, args[2])
           case _ => true
      else SafeArgs(g, args) && SafeCall(g, e)
    case Like(_, _, _, _, _) => LikeNeedle(e).Some? ==> '\\' !in LikeNeedle(e).value
    case Binary(_, left, right) => Safe(g, left) && Safe(g, right)
    case Unary(_, operand) => Safe(g, operand)
    case Access(root, chain) => Safe(g, root) && SafeChain(g, chain)
    case Extract(_, _) => true
    case Column(_) => true
    case Text(_) => true
    case Number(_) => true
    case Case(_, _, _) => true
    case Opaque(_) => true
  }

  predicate SafeArg(g: Engine, arg: Arg)
    decreases arg
  {
    match arg
    case Unnamed(e) => Safe(g, e)
    case Named(_, e) => Safe(g, e)
    case Wildcard => true
  }

  predicate SafeArgs(g: Engine, args: seq<Arg>)
    decreases args, 0
  {
    args == [] || (SafeArg(g, args[|args| - 1]) && SafeArgs(g, args[..|args| - 1]))
  }

  predicate SafeBound(g: Engine, b: Bound)
    decreases b
  {
    match b
    case Absent => true
    case Present(e) => Safe(g, e)
  }

  predicate SafeAccessor(g: Engine, a: Accessor)
    decreases a
  {
    match a
    case Dot(e) => Safe(g, e)
    case Index(e) => Safe(g, e)
    case Slice(lower, upper, stride) => SafeBound(g, lower) && SafeBound(g, upper) && SafeBound(g, stride)
  }

  predicate SafeChain(g: Engine, chain: seq<Accessor>)
    decreases chain, 0
  {
    chain == [] || (SafeAccessor(g, chain[|chain| - 1]) && SafeChain(g, chain[..|chain| - 1]))
  }

  // ----- calls -----

  /** The call with its arguments rewritten, before its own rule. */
  function Inner(e: Expr): Expr
    requires e.Function?
  {
    Function(e.path, e.plain, e.decoration, RewriteArgs(e.args).0)
  }

  lemma {:induction false} RewriteArgAt(args: seq<Arg>, i: nat)
    requires i < |args|
    ensures RewriteArgs(args).0[i] == RewriteArg(args[i]).0
    decreases |args|
  {
    hide RewriteArg;
    if i < |args| - 1 {
      RewriteArgAt(args[..|args| - 1], i);
    }
  }

  lemma UnnamedKept(args: seq<Arg>)
    ensures AllUnnamed(RewriteArgs(args).0) <==> AllUnnamed(args)
    ensures AllUnnamed(args) ==>
      forall i | 0 <= i < |args| :: RewriteArgs(args).0[i].Unnamed? && RewriteArgs(args).0[i].e == Rewrite(args[i].e).0
  {
    hide Rewrite, RewriteArgs;
    forall i | 0 <= i < |args| ensures RewriteArgs(args).0[i] == RewriteArg(args[i]).0 {
      RewriteArgAt(args, i);
    }
  }

  /** No rule builds a bare string or name, so what is one now was one to begin with. */
  lemma TextsKept(e: Expr)
    ensures Rewrite(e).0.Text? <==> e.Text?
    ensures Rewrite(e).0.Column? <==> e.Column?
    ensures e.Text? || e.Column? ==> Rewrite(e).0 == e
  {
    hide RewriteArgs, RewriteChain, IsCall, LikeNeedle, IsCapture;
  }

  lemma InnerKind(e: Expr)
    requires e.Function?
    ensures forall name, arity :: IsCall(Inner(e), name, arity) <==> IsCall(e, name, arity)
    ensures IsCapture(Inner(e)) <==> IsCapture(e)
    ensures IsCapture(e) ==> Inner(e).args[1] == e.args[1] && Inner(e).args[2] == e.args[2]
  {
    hide Rewrite, RewriteArgs, CaptureIndex, SameName;
    UnnamedKept(e.args);
    if IsCall(e, "regexp_replace", 3) {
      TextsKept(e.args[1].e);
      TextsKept(e.args[2].e);
    }
  }

  lemma SameBuiltin(a: string, b: string)
    requires SameName(a, b)
    ensures BuiltinNamed(a) == BuiltinNamed(b)
  {
    hide Fold;
  }

  lemma BuiltinCall(g: Engine, e: Expr, name: string, b: Builtin)
    requires IsCall(e, name, Arity(b)) && BuiltinNamed(name) == b && !b.UserFn?
    ensures BuiltinOf(e.path, e.plain, EvalArgs(g, e.args)) == b
    ensures forall i | 0 <= i < |e.args| :: EvalArgs(g, e.args)[i] == Plain(Eval(g, e.args[i].e))
  {
    hide Eval, EvalArgs, BuiltinNamed, SameName;
    SameBuiltin(e.path[0], name);
    forall i | 0 <= i < |e.args| ensures EvalArgs(g, e.args)[i] == Plain(Eval(g, e.args[i].e)) {
      ArgAt(g, e.args, i);
    }
  }

  /** The rules for calls but the capture one preserve a call's meaning on a row exactly within their conditions. */
  lemma CallRuleExact(g: Engine, e: Expr)
    requires e.Function? && CallRule(e).Some? && !IsCapture(e)
    requires IsCall(e, "get", 2) ==> Countable(Eval(g, e.args[0].e))
    ensures Eval(g, CallRule(e).value) == Eval(g, e) <==> SafeCall(g, e)
  {
    hide BuiltinNamed, BuiltinOf, SameName, GetExpr, ElementAtExpr, RegexpReplace, IndexTyped, GetValue, ElementAt;
    Names();
    if IsCall(e, "if", 3) {
      BuiltinCall(g, e, "if", IfFn);
    } else if IsCall(e, "get", 2) {
      BuiltinCall(g, e, "get", GetFn);
      BuiltinApart(e, "get", "element_at", 2);
      GetMeaning(g, e.args[0].e, e.args[1].e);
    } else {
      BuiltinCall(g, e, "element_at", ElementAtFn);
      ElementAtMeaning(g, e.args[0].e, e.args[1].e);
    }
  }

  lemma BuiltinApart(e: Expr, name: string, other: string, arity: nat)
    requires e.Function? && IsCall(e, name, arity) && BuiltinNamed(name) != BuiltinNamed(other)
    ensures !IsCall(e, other, arity)
  {
    hide BuiltinNamed, SameName;
    if IsCall(e, other, arity) {
      SameBuiltin(e.path[0], name);
      SameBuiltin(e.path[0], other);
    }
  }

  lemma CaptureRulePreserves(g: Engine, e: Expr)
    requires e.Function? && IsCapture(e) && SafeCall(g, e)
    ensures CallRule(e).Some? && Eval(g, CallRule(e).value) == Eval(g, e)
  {
    hide BuiltinNamed, BuiltinOf, CaptureIndex, SameName, GetExpr, ElementAtExpr, CaptureExpr, RegexpReplace;
    Names();
    BuiltinApart(e, "regexp_replace", "if", 3);
    BuiltinCall(g, e, "regexp_replace", RegexpReplaceFn);
    CaptureMeaning(g, e.args[0].e, e.args[1].e.text, e.args[2].e.text);
  }

  /** A call's own rule preserves its meaning. */
  lemma CallRulePreserves(g: Engine, e: Expr)
    requires e.Function? && SafeCall(g, e) && CallRule(e).Some?
    ensures Eval(g, CallRule(e).value) == Eval(g, e)
  {
    hide CallRule, Eval, IsCall, IsCapture, Capturing, IndexTyped;
    if IsCapture(e) {
      CaptureRulePreserves(g, e);
    } else {
      CallRuleExact(g, e);
    }
  }

  // ----- the theorem -----

  lemma IfPreserved(g: Engine, e: Expr)
    requires e.Function? && IsCall(e, "if", 3)
    requires var c := Eval(g, e.args[0].e);
      && Eval(g, Rewrite(e.args[0].e).0) == c
      && (c == Ok(Bool(true)) ==> Eval(g, Rewrite(e.args[1].e).0) == Eval(g, e.args[1].e))
      && (c == Ok(Bool(false)) || c == Ok(Null) ==> Eval(g, Rewrite(e.args[2].e).0) == Eval(g, e.args[2].e))
    ensures Eval(g, Rewrite(e).0) == Eval(g, e)
  {
    hide BuiltinNamed, BuiltinOf, SameName, RewriteArgs, EvalArgs, IsCapture;
    Names();
    InnerKind(e);
    UnnamedKept(e.args);
    BuiltinCall(g, e, "if", IfFn);
    var inner := Inner(e).args;
    assert Rewrite(e).0 == Case(inner[0].e, inner[1].e, inner[2].e);
  }

  lemma CallPreserved(g: Engine, e: Expr)
    requires e.Function? && !IsCall(e, "if", 3) && SafeCall(g, e)
    requires EvalArgs(g, RewriteArgs(e.args).0) == EvalArgs(g, e.args)
    ensures Eval(g, Rewrite(e).0) == Eval(g, e)
  {
    hide CallValue, RewriteArgs, EvalArgs, IsCall, IsCapture, CallRule, SafeCall;
    assert Eval(g, Inner(e)) == Eval(g, e);
    if CallRule(Inner(e)).Some? {
      SafeInner(g, e);
      CallRulePreserves(g, Inner(e));
    }
  }

  lemma SafeInner(g: Engine, e: Expr)
    requires e.Function? && SafeCall(g, e)
    requires EvalArgs(g, RewriteArgs(e.args).0) == EvalArgs(g, e.args)
    ensures SafeCall(g, Inner(e))
  {
    hide RewriteArgs, EvalArgs, SameName, CaptureIndex, Eval;
    InnerKind(e);
    if AllUnnamed(e.args) {
      UnnamedKept(e.args);
      forall i | 0 <= i < |e.args| ensures Eval(g, Inner(e).args[i].e) == Eval(g, e.args[i].e) {
        ArgAt(g, e.args, i);
        ArgAt(g, Inner(e).args, i);
      }
    }
  }

  /** For every expression and every row on which its rules are within their conditions, the rewritten expression gives
      the same value, NULL or error. */
  lemma {:induction false} RewritePreservesMeaning(g: Engine, e: Expr)
    requires Safe(g, e)
    ensures Eval(g, Rewrite(e).0) == Eval(g, e)
    decreases e, 1
  {
    hide CallValue, CallRule, SafeCall, IsCall, LikeNeedle, EvalArgs, RewriteArgs, EvalChain, RewriteChain,
      BinaryValue, LikeValue, BuiltinNamed, ContainsExpr;
    match e {
      case Function(_, _, _, args) =>
        if IsCall(e, "if", 3) {
          IfArgs(g, e);
          IfPreserved(g, e);
        } else {
          ArgsPreserved(g, args);
          CallPreserved(g, e);
        }
      case Like(_, _, _, _, _) =>
        if LikeNeedle(e).Some? {
          LikeMeaning(g, e);
        }
      case Extract(field, source) =>
        if field.Minute? || field.Minutes? {
          ExtractPreserved(g, source);
        }
      case Binary(_, left, right) =>
        RewritePreservesMeaning(g, left);
        RewritePreservesMeaning(g, right);
      case Unary(_, operand) =>
        RewritePreservesMeaning(g, operand);
      case Access(root, chain) =>
        RewritePreservesMeaning(g, root);
        ChainPreserved(g, Eval(g, root), chain, IsCall(root, "get", 2));
      case Column(_) =>
      case Text(_) =>
      case Number(_) =>
      case Case(_, _, _) =>
      case Opaque(_) =>
    }
  }

  lemma ExtractPreserved(g: Engine, source: Expr)
    ensures Eval(g, Call(EXTRACT_MINUTE_UDF, [source])) == MinuteValue(g, Eval(g, source), CivilMinute)
  {
    hide BuiltinNamed, BuiltinOf, UdfMinute, CivilMinute, Wrap;
    Names();
    CallMeaning(g, EXTRACT_MINUTE_UDF, [source], MinuteFn);
    var o := Eval(g, source);
    if o.Ok? && o.v.Timestamp? {
      MinutesAgree(o.v.unitsPerSecond, o.v.ticks);
    }
  }

  lemma {:induction false} IfArgs(g: Engine, e: Expr)
    requires e.Function? && IsCall(e, "if", 3) && Safe(g, e)
    ensures var c := Eval(g, e.args[0].e);
      && Eval(g, Rewrite(e.args[0].e).0) == c
      && (c == Ok(Bool(true)) ==> Eval(g, Rewrite(e.args[1].e).0) == Eval(g, e.args[1].e))
      && (c == Ok(Bool(false)) || c == Ok(Null) ==> Eval(g, Rewrite(e.args[2].e).0) == Eval(g, e.args[2].e))
    decreases e, 0
  {
    hide SameName, Eval, Rewrite;
    var c := Eval(g, e.args[0].e);
    ArgPreserved(g, e.args[0]);
    if c == Ok(Bool(true)) {
      ArgPreserved(g, e.args[1]);
    } else if c == Ok(Bool(false)) || c == Ok(Null) {
      ArgPreserved(g, e.args[2]);
    }
  }

  lemma {:induction false} ArgPreserved(g: Engine, arg: Arg)
    requires SafeArg(g, arg)
    ensures EvalArg(g, RewriteArg(arg).0) == EvalArg(g, arg)
    ensures !arg.Wildcard? ==> Eval(g, Rewrite(arg.e).0) == Eval(g, arg.e)
    decreases arg
  {
    hide Eval, Rewrite, Safe;
    match arg {
      case Unnamed(e) => RewritePreservesMeaning(g, e);
      case Named(_, e) => RewritePreservesMeaning(g, e);
      case Wildcard =>
    }
  }

  lemma {:induction false} ArgsPreserved(g: Engine, args: seq<Arg>)
    requires SafeArgs(g, args)
    ensures EvalArgs(g, RewriteArgs(args).0) == EvalArgs(g, args)
    decreases args, 0
  {
    hide EvalArg, RewriteArg, SafeArg;
    if args != [] {
      var n := |args| - 1;
      ArgPreserved(g, args[n]);
      ArgsPreserved(g, args[..n]);
      assert RewriteArgs(args).0[..n] == RewriteArgs(args[..n]).0;
    }
  }

  lemma {:induction false} BoundPreserved(g: Engine, b: Bound)
    requires SafeBound(g, b)
    ensures EvalBound(g, RewriteBound(b).0) == EvalBound(g, b)
    decreases b
  {
    hide Eval, Rewrite, Safe;
    if b.Present? {
      RewritePreservesMeaning(g, b.e);
    }
  }

  lemma {:induction false} AccessorPreserved(g: Engine, v: Value, a: Accessor, named: bool)
    requires SafeAccessor(g, a)
    ensures EvalAccessor(g, v, RewriteAccessor(a, named).0) == EvalAccessor(g, v, a)
    decreases a
  {
    hide Rewrite, Safe, EvalBound, RewriteBound, SafeBound;
    match a {
      case Dot(e) =>
        RewritePreservesMeaning(g, e);
        TextsKept(e);
      case Index(e) =>
        RewritePreservesMeaning(g, e);
      case Slice(lower, upper, stride) =>
        BoundPreserved(g, lower);
        BoundPreserved(g, upper);
        BoundPreserved(g, stride);
    }
  }

  lemma {:induction false} ChainPreserved(g: Engine, root: Outcome, chain: seq<Accessor>, named: bool)
    requires SafeChain(g, chain)
    ensures EvalChain(g, root, RewriteChain(chain, named).0) == EvalChain(g, root, chain)
    decreases chain, 0
  {
    hide EvalAccessor, RewriteAccessor, SafeAccessor;
    if chain != [] {
      var n := |chain| - 1;
      ChainPreserved(g, root, chain[..n], named);
      assert RewriteChain(chain, named).0[..n] == RewriteChain(chain[..n], named).0;
      var front := EvalChain(g, root, chain[..n]);
      if front.Ok? {
        AccessorPreserved(g, front.v, chain[n], named);
      }
    }
  }
}
