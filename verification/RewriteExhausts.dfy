/** The pass misses nothing where it looks, and changes nothing when run again there. */
module RewriteExhausts {
  import opened Ascii
  import opened Rewriter
  import opened SqlMeaning
  import opened RewriteMeaning
  import opened RewritePreserves

  /** No rule applies anywhere in the expression, inside CASE and the operands of LIKE and EXTRACT too. */
  predicate RuleFree(e: Expr)
    decreases e, 1
  {
    match e
    case Function(_, _, _, args) => CallRule(e).None? && RuleFreeArgs(args)
    case Like(_, _, _, subject, pattern) => LikeNeedle(e).None? && RuleFree(subject) && RuleFree(pattern)
    case Extract(field, source) => field.OtherField? && RuleFree(source)
    case Case(condition, result, otherwise) => RuleFree(condition) && RuleFree(result) && RuleFree(otherwise)
    case Binary(_, left, right) => RuleFree(left) && RuleFree(right)
    case Unary(_, operand) => RuleFree(operand)
    case Access(root, chain) => RuleFree(root) && RuleFreeChain(chain)
    case Column(_) => true
    case Text(_) => true
    case Number(_) => true
    case Opaque(_) => true
  }

  predicate RuleFreeArg(arg: Arg)
    decreases arg
  {
    match arg
    case Unnamed(e) => RuleFree(e)
    case Named(_, e) => RuleFree(e)
    case Wildcard => true
  }

  predicate RuleFreeArgs(args: seq<Arg>)
    decreases args, 0
  {
    args == [] || (RuleFreeArg(args[|args| - 1]) && RuleFreeArgs(args[..|args| - 1]))
  }

  predicate RuleFreeBound(b: Bound)
    decreases b
  {
    b.Present? ==> RuleFree(b.e)
  }

  predicate RuleFreeAccessor(a: Accessor)
    decreases a
  {
    match a
    case Dot(e) => RuleFree(e)
    case Index(e) => RuleFree(e)
    case Slice(lower, upper, stride) => RuleFreeBound(lower) && RuleFreeBound(upper) && RuleFreeBound(stride)
  }

  predicate RuleFreeChain(chain: seq<Accessor>)
    decreases chain, 0
  {
    chain == [] || (RuleFreeAccessor(chain[|chain| - 1]) && RuleFreeChain(chain[..|chain| - 1]))
  }

  /** Rules apply at most where the pass looks: not within CASE, nor within the operands of LIKE and EXTRACT. */
  predicate Open(e: Expr)
    decreases e, 1
  {
    match e
    case Function(_, _, _, args) => OpenArgs(args)
    case Like(_, _, _, subject, pattern) => RuleFree(subject) && RuleFree(pattern)
    case Extract(_, source) => RuleFree(source)
    case Case(_, _, _) => RuleFree(e)
    case Binary(_, left, right) => Open(left) && Open(right)
    case Unary(_, operand) => Open(operand)
    case Access(root, chain) => Open(root) && OpenChain(chain)
    case Column(_) => true
    case Text(_) => true
    case Number(_) => true
    case Opaque(_) => true
  }

  predicate OpenArg(arg: Arg)
    decreases arg
  {
    match arg
    case Unnamed(e) => Open(e)
    case Named(_, e) => Open(e)
    case Wildcard => true
  }

  predicate OpenArgs(args: seq<Arg>)
    decreases args, 0
  {
    args == [] || (OpenArg(args[|args| - 1]) && OpenArgs(args[..|args| - 1]))
  }

  predicate OpenBound(b: Bound)
    decreases b
  {
    b.Present? ==> Open(b.e)
  }

  predicate OpenAccessor(a: Accessor)
    decreases a
  {
    match a
    case Dot(e) => Open(e)
    case Index(e) => Open(e)
    case Slice(lower, upper, stride) => OpenBound(lower) && OpenBound(upper) && OpenBound(stride)
  }

  predicate OpenChain(chain: seq<Accessor>)
    decreases chain, 0
  {
    chain == [] || (OpenAccessor(chain[|chain| - 1]) && OpenChain(chain[..|chain| - 1]))
  }

  // ----- what the rules build is free of rules -----

  lemma {:induction false} ArgFreeAt(args: seq<Arg>, i: nat)
    requires RuleFreeArgs(args) && i < |args|
    ensures RuleFreeArg(args[i])
    decreases |args|
  {
    hide RuleFreeArg;
    if i < |args| - 1 {
      ArgFreeAt(args[..|args| - 1], i);
    }
  }

  lemma {:induction false} ArgsFree(args: seq<Arg>)
    requires forall i | 0 <= i < |args| :: RuleFreeArg(args[i])
    ensures RuleFreeArgs(args)
    decreases |args|
  {
    hide RuleFreeArg;
    if args != [] {
      ArgsFree(args[..|args| - 1]);
    }
  }

  lemma NoSource(name: string, b: Builtin)
    requires BuiltinNamed(name) == b && b in {ArrayElementFn, MapExtractFn, ContainsFn, MinuteFn, CaptureFn}
    ensures !SameName(name, "if") && !SameName(name, "get")
    ensures !SameName(name, "element_at") && !SameName(name, "regexp_replace")
  {
    hide BuiltinNamed, SameName;
    SourceNames();
    forall source | source in {"if", "get", "element_at", "regexp_replace"} ensures !SameName(name, source) {
      if SameName(name, source) {
        SameBuiltin(name, source);
      }
    }
  }

  /** A call of a function that the rules target, on arguments free of rules. */
  lemma TargetFree(name: string, args: seq<Expr>, b: Builtin)
    requires BuiltinNamed(name) == b && b in {ArrayElementFn, MapExtractFn, ContainsFn, MinuteFn, CaptureFn}
    requires forall i | 0 <= i < |args| :: RuleFree(args[i])
    ensures RuleFree(Call(name, args))
  {
    hide BuiltinNamed, RuleFree, SameName;
    var e := Call(name, args);
    NoSource(name, b);
    forall i | 0 <= i < |args| ensures RuleFreeArg(e.args[i]) {
      assert RuleFree(args[i]);
    }
    ArgsFree(e.args);
    assert CallRule(e).None?;
    FunctionFree(e);
  }

  lemma FunctionFree(e: Expr)
    requires e.Function? && CallRule(e).None? && RuleFreeArgs(e.args)
    ensures RuleFree(e)
  {
  }

  lemma GetFree(items: Expr, index: Expr)
    requires RuleFree(items) && RuleFree(index)
    ensures RuleFree(GetExpr(items, index))
  {
    hide BuiltinNamed, Call;
    Names();
    var below, next := Binary(Lt, index, Number("0")), Binary(Plus, index, Number("1"));
    var shifted := Case(below, Number("0"), next);
    assert RuleFree(Number("0")) && RuleFree(Number("1"));
    assert RuleFree(below) && RuleFree(next);
    assert RuleFree(shifted);
    hide RuleFree;
    var args := [items, shifted];
    assert args[0] == items && args[1] == shifted;
    TargetFree("array_element", args, ArrayElementFn);
  }

  lemma ElementAtFree(m: Expr, key: Expr)
    requires RuleFree(m) && RuleFree(key)
    ensures RuleFree(ElementAtExpr(m, key))
  {
    hide BuiltinNamed, Call;
    Names();
    TargetFree("map_extract", [m, key], MapExtractFn);
    TargetFree("array_element", [Call("map_extract", [m, key]), Number("1")], ArrayElementFn);
  }

  lemma CaptureFree(source: Expr, pattern: string, group: nat)
    requires RuleFree(source)
    ensures RuleFree(CaptureExpr(source, pattern, group))
  {
    hide BuiltinNamed, Call, Decimals.Decimal;
    Names();
    TargetFree(REGEXP_REPLACE_CAPTURE_UDF, [source, Text(pattern), Number(Decimals.Decimal(group))], CaptureFn);
  }

  lemma BuiltFree(e: Expr)
    requires e.Function? && RuleFreeArgs(e.args) && CallRule(e).Some?
    ensures RuleFree(CallRule(e).value)
  {
    hide SameName, CaptureIndex, RuleFreeArgs, GetExpr, ElementAtExpr, CaptureExpr;
    forall i | 0 <= i < |e.args| && e.args[i].Unnamed? ensures RuleFree(e.args[i].e) {
      ArgFreeAt(e.args, i);
    }
    if IsCall(e, "if", 3) {
    } else if IsCall(e, "get", 2) {
      GetFree(e.args[0].e, e.args[1].e);
    } else if IsCall(e, "element_at", 2) {
      ElementAtFree(e.args[0].e, e.args[1].e);
    } else {
      CaptureFree(e.args[0].e, e.args[1].e.text, CaptureIndex(e.args[2].e.text).value);
    }
  }

  lemma ContainsFree(haystack: Expr, needle: string, negated: bool)
    requires RuleFree(haystack)
    ensures RuleFree(ContainsExpr(haystack, needle, negated))
  {
    hide BuiltinNamed, Call;
    Names();
    TargetFree("contains", [haystack, Text(needle)], ContainsFn);
  }

  lemma MinuteFree(source: Expr)
    requires RuleFree(source)
    ensures RuleFree(Call(EXTRACT_MINUTE_UDF, [source]))
  {
    hide BuiltinNamed, Call;
    Names();
    TargetFree(EXTRACT_MINUTE_UDF, [source], MinuteFn);
  }

  // ----- the pass leaves no rule to apply -----

  /** Where rules apply at most where the pass looks, none is left to apply anywhere. */
  lemma {:induction false} RulesExhausted(e: Expr)
    requires Open(e)
    ensures RuleFree(Rewrite(e).0)
    decreases e, 1
  {
    hide CallRule, LikeNeedle, RewriteArgs, RewriteChain, OpenArgs, OpenChain, RuleFreeArgs, RuleFreeChain, IsCall,
      ContainsExpr, Call;
    match e {
      case Function(_, _, _, args) =>
        ArgsExhausted(args);
        var f := Inner(e);
        if CallRule(f).Some? {
          BuiltFree(f);
        }
      case Like(negated, _, _, subject, _) =>
        if LikeNeedle(e).Some? {
          ContainsFree(subject, LikeNeedle(e).value, negated);
        }
      case Extract(_, source) =>
        MinuteFree(source);
      case Binary(_, left, right) =>
        RulesExhausted(left);
        RulesExhausted(right);
      case Unary(_, operand) =>
        RulesExhausted(operand);
      case Access(root, chain) =>
        RulesExhausted(root);
        ChainExhausted(chain, IsCall(root, "get", 2));
      case Case(_, _, _) =>
      case Column(_) =>
      case Text(_) =>
      case Number(_) =>
      case Opaque(_) =>
    }
  }

  lemma {:induction false} ArgExhausted(arg: Arg)
    requires OpenArg(arg)
    ensures RuleFreeArg(RewriteArg(arg).0)
    decreases arg
  {
    hide Rewrite, RuleFree, Open;
    match arg {
      case Unnamed(e) => RulesExhausted(e);
      case Named(_, e) => RulesExhausted(e);
      case Wildcard =>
    }
  }

  lemma {:induction false} ArgsExhausted(args: seq<Arg>)
    requires OpenArgs(args)
    ensures RuleFreeArgs(RewriteArgs(args).0)
    decreases args, 0
  {
    hide RewriteArg, RuleFreeArg, OpenArg;
    if args != [] {
      var n := |args| - 1;
      ArgExhausted(args[n]);
      ArgsExhausted(args[..n]);
      assert RewriteArgs(args).0[..n] == RewriteArgs(args[..n]).0;
    }
  }

  lemma {:induction false} BoundExhausted(b: Bound)
    requires OpenBound(b)
    ensures RuleFreeBound(RewriteBound(b).0)
    decreases b
  {
    hide Rewrite, RuleFree, Open;
    if b.Present? {
      RulesExhausted(b.e);
    }
  }

  lemma {:induction false} AccessorExhausted(a: Accessor, named: bool)
    requires OpenAccessor(a)
    ensures RuleFreeAccessor(RewriteAccessor(a, named).0)
    decreases a
  {
    hide Rewrite, RewriteBound, RuleFreeBound, OpenBound, Open;
    match a {
      case Dot(e) => RulesExhausted(e);
      case Index(e) => RulesExhausted(e);
      case Slice(lower, upper, stride) =>
        BoundExhausted(lower);
        BoundExhausted(upper);
        BoundExhausted(stride);
    }
  }

  lemma {:induction false} ChainExhausted(chain: seq<Accessor>, named: bool)
    requires OpenChain(chain)
    ensures RuleFreeChain(RewriteChain(chain, named).0)
    decreases chain, 0
  {
    hide RewriteAccessor, RuleFreeAccessor, OpenAccessor;
    if chain != [] {
      var n := |chain| - 1;
      AccessorExhausted(chain[n], named);
      ChainExhausted(chain[..n], named);
      assert RewriteChain(chain, named).0[..n] == RewriteChain(chain[..n], named).0;
    }
  }

  // ----- an expression without rules is left alone -----

  lemma {:induction false} RuleFreeUnchanged(e: Expr)
    requires RuleFree(e)
    ensures Rewrite(e) == (e, false)
    decreases e, 1
  {
    hide CallRule, LikeNeedle, RewriteArgs, RewriteChain, RuleFreeArgs, RuleFreeChain;
    match e {
      case Function(_, _, _, args) => ArgsUnchanged(args);
      case Binary(_, left, right) =>
        RuleFreeUnchanged(left);
        RuleFreeUnchanged(right);
      case Unary(_, operand) => RuleFreeUnchanged(operand);
      case Access(root, chain) =>
        RuleFreeUnchanged(root);
        NoGet(root);
        ChainUnchanged(chain);
      case Like(_, _, _, _, _) =>
      case Extract(_, _) =>
      case Case(_, _, _) =>
      case Column(_) =>
      case Text(_) =>
      case Number(_) =>
      case Opaque(_) =>
    }
  }

  lemma NoGet(e: Expr)
    requires RuleFree(e)
    ensures !IsCall(e, "get", 2)
  {
    hide RuleFreeArgs, IsCapture;
  }

  lemma {:induction false} ArgUnchanged(arg: Arg)
    requires RuleFreeArg(arg)
    ensures RewriteArg(arg) == (arg, false)
    decreases arg
  {
    hide Rewrite, RuleFree;
    match arg {
      case Unnamed(e) => RuleFreeUnchanged(e);
      case Named(_, e) => RuleFreeUnchanged(e);
      case Wildcard =>
    }
  }

  lemma {:induction false} ArgsUnchanged(args: seq<Arg>)
    requires RuleFreeArgs(args)
    ensures RewriteArgs(args) == (args, false)
    decreases args, 0
  {
    hide RewriteArg, RuleFreeArg;
    if args != [] {
      var n := |args| - 1;
      ArgUnchanged(args[n]);
      ArgsUnchanged(args[..n]);
      assert args == args[..n] + [args[n]];
    }
  }

  lemma {:induction false} BoundUnchanged(b: Bound)
    requires RuleFreeBound(b)
    ensures RewriteBound(b) == (b, false)
    decreases b
  {
    hide Rewrite, RuleFree;
    if b.Present? {
      RuleFreeUnchanged(b.e);
    }
  }

  lemma {:induction false} AccessorUnchanged(a: Accessor)
    requires RuleFreeAccessor(a)
    ensures RewriteAccessor(a, false) == (a, false)
    decreases a
  {
    hide Rewrite, RewriteBound, RuleFree, RuleFreeBound;
    match a {
      case Dot(e) => RuleFreeUnchanged(e);
      case Index(e) => RuleFreeUnchanged(e);
      case Slice(lower, upper, stride) =>
        BoundUnchanged(lower);
        BoundUnchanged(upper);
        BoundUnchanged(stride);
    }
  }

  lemma {:induction false} ChainUnchanged(chain: seq<Accessor>)
    requires RuleFreeChain(chain)
    ensures RewriteChain(chain, false) == (chain, false)
    decreases chain, 0
  {
    hide RewriteAccessor, RuleFreeAccessor;
    if chain != [] {
      var n := |chain| - 1;
      AccessorUnchanged(chain[n]);
      ChainUnchanged(chain[..n]);
      assert chain == chain[..n] + [chain[n]];
    }
  }

  /** Running the pass again changes nothing, on expressions whose rules are all where it looks. */
  lemma RewriteTwice(e: Expr)
    requires Open(e)
    ensures Rewrite(Rewrite(e).0) == (Rewrite(e).0, false)
  {
    hide Rewrite, Open, RuleFree;
    RulesExhausted(e);
    RuleFreeUnchanged(Rewrite(e).0);
  }
}
