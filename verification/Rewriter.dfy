/** The pass that turns Databricks spellings into ones the engine evaluates fast: the expressions and its rules. */
module Rewriter {
  import opened Wrappers
  import opened Ascii
  import opened Decimals
  import opened LikePatterns

  datatype BinaryOp = Lt | Plus | OtherBinary(symbol: string)
  datatype UnaryOp = Not | OtherUnary(symbol: string)
  datatype DateField = Minute | Minutes | OtherField(name: string)

  /** An expression as parsed. `plain` is a call with nothing but its argument list; a `decoration` stands for the
      clauses of any other call, and Opaque for the expressions the pass does not look into. */
  datatype Expr =
    | Column(name: string)
    | Text(text: string)
    | Number(digits: string)
    | Binary(op: BinaryOp, left: Expr, right: Expr)
    | Unary(uop: UnaryOp, operand: Expr)
    | Function(path: seq<string>, plain: bool, decoration: nat, args: seq<Arg>)
    | Like(negated: bool, anyOf: bool, escaped: bool, subject: Expr, pattern: Expr)
    | Extract(field: DateField, source: Expr)
    | Case(condition: Expr, result: Expr, otherwise: Expr)
    | Access(root: Expr, chain: seq<Accessor>)
    | Opaque(id: nat)

  datatype Arg = Unnamed(e: Expr) | Named(tag: string, e: Expr) | Wildcard

  datatype Accessor = Dot(e: Expr) | Index(e: Expr) | Slice(lower: Bound, upper: Bound, stride: Bound)

  datatype Bound = Absent | Present(e: Expr)

  // ----- which calls a rule applies to -----

  predicate AllUnnamed(args: seq<Arg>) { forall i | 0 <= i < |args| :: args[i].Unnamed? }

  predicate IsCall(e: Expr, name: string, arity: nat) {
    && e.Function? && |e.path| == 1 && SameName(e.path[0], name) && e.plain
    && |e.args| == arity && AllUnnamed(e.args)
  }

  function Call(name: string, args: seq<Expr>): Expr {
    Function([name], true, 0, seq(|args|, i requires 0 <= i < |args| => Unnamed(args[i])))
  }

  const MAX_U64 := 0xffff_ffff_ffff_ffff

  /** One capture reference: a dollar or a backslash, and a number that may be in braces. */
  function CaptureIndex(replacement: string): Option<nat> {
    if replacement != "" && (replacement[0] == '$' || replacement[0] == '\\') then
      var rest := replacement[1..];
      var digits := if |rest| >= 2 && rest[0] == '{' && rest[|rest| - 1] == '}' then rest[1..|rest| - 1] else rest;
      if digits != "" && AllDigits(digits) && DecimalValue(digits) <= MAX_U64 then Some(DecimalValue(digits)) else None
    else None
  }

  predicate Spelling(replacement: string, open: string, digits: string, group: nat) {
    && digits != "" && AllDigits(digits) && DecimalValue(digits) == group
    && ((open in {"$", "\\"} && replacement == open + digits)
        || (open in {"${", "\\{"} && replacement == open + digits + "}"))
  }

  lemma SpellingRead(replacement: string, open: string, digits: string, group: nat)
    requires Spelling(replacement, open, digits, group) && group <= MAX_U64
    ensures CaptureIndex(replacement) == Some(group)
  {
    var rest := replacement[1..];
    if |open| == 2 {
      assert rest == "{" + digits + "}" && rest[1..|rest| - 1] == digits;
    } else {
      assert rest == digits && IsDigit(rest[0]);
    }
  }

  lemma ReadSpelling(replacement: string) returns (open: string, digits: string)
    requires CaptureIndex(replacement).Some?
    ensures Spelling(replacement, open, digits, CaptureIndex(replacement).value)
  {
    var rest := replacement[1..];
    if |rest| >= 2 && rest[0] == '{' && rest[|rest| - 1] == '}' {
      open, digits := [replacement[0], '{'], rest[1..|rest| - 1];
    } else {
      open, digits := [replacement[0]], rest;
    }
    assert replacement == open + digits || replacement == open + digits + "}";
  }

  /** The recognizer accepts exactly the four spellings, each with its group number. */
  lemma CaptureIndexExact(replacement: string, group: nat)
    ensures CaptureIndex(replacement) == Some(group) <==>
      (group <= MAX_U64 && exists open: string, digits: string :: Spelling(replacement, open, digits, group))
  {
    hide CaptureIndex, Spelling;
    if CaptureIndex(replacement) == Some(group) {
      var open, digits := ReadSpelling(replacement);
      CaptureIndexBound(replacement);
    }
    forall open: string, digits: string | group <= MAX_U64 && Spelling(replacement, open, digits, group)
      ensures CaptureIndex(replacement) == Some(group)
    {
      SpellingRead(replacement, open, digits, group);
    }
  }

  lemma CaptureIndexBound(replacement: string)
    ensures CaptureIndex(replacement).Some? ==> CaptureIndex(replacement).value <= MAX_U64
  {
  }

  predicate IsCapture(e: Expr) {
    && IsCall(e, "regexp_replace", 3) && e.args[1].e.Text? && e.args[2].e.Text?
    && CaptureIndex(e.args[2].e.text).Some?
  }

  // ----- what the rules build -----

  const EXTRACT_MINUTE_UDF := "harborsql_extract_minute"
  const REGEXP_REPLACE_CAPTURE_UDF := "harborsql_regexp_replace_capture"

  function GetExpr(items: Expr, index: Expr): Expr {
    Call("array_element", [items,
      Case(Binary(Lt, index, Number("0")), Number("0"), Binary(Plus, index, Number("1")))])
  }

  function ElementAtExpr(m: Expr, key: Expr): Expr {
    Call("array_element", [Call("map_extract", [m, key]), Number("1")])
  }

  function CaptureExpr(source: Expr, pattern: string, group: nat): Expr {
    Call(REGEXP_REPLACE_CAPTURE_UDF, [source, Text(pattern), Number(Decimal(group))])
  }

  function ContainsExpr(haystack: Expr, needle: string, negated: bool): Expr {
    var contains := Call("contains", [haystack, Text(needle)]);
    if negated then Unary(Not, contains) else contains
  }

  /** The first rule that applies to a call, after its arguments have been rewritten. */
  function CallRule(e: Expr): (r: Option<Expr>)
    requires e.Function?
    ensures r.Some? ==> r.value != e
  {
    if IsCall(e, "if", 3) then Some(Case(e.args[0].e, e.args[1].e, e.args[2].e))
    else if IsCall(e, "get", 2) then
      assert Fold(e.path[0])[0] == 'g';
      Some(GetExpr(e.args[0].e, e.args[1].e))
    else if IsCall(e, "element_at", 2) then
      assert Fold(e.path[0])[0] == 'e';
      Some(ElementAtExpr(e.args[0].e, e.args[1].e))
    else if IsCapture(e) then
      assert Fold(e.path[0])[0] == 'r';
      Some(CaptureExpr(e.args[0].e, e.args[1].e.text, CaptureIndex(e.args[2].e.text).value))
    else None
  }

  /** The needle of a LIKE that the pass turns into a containment test. */
  function LikeNeedle(e: Expr): Option<string>
    requires e.Like?
  {
    if !e.anyOf && !e.escaped && e.pattern.Text? then NeedleOf(e.pattern.text) else None
  }

  // ----- the pass -----

  /** The rewritten expression, and whether the pass reports a change. */
  function Rewrite(e: Expr): (r: (Expr, bool))
    decreases e, 1
  {
    match e
    case Extract(field, source) =>
      if field.Minute? || field.Minutes? then (Call(EXTRACT_MINUTE_UDF, [source]), true) else (e, false)
    case Function(path, plain, decoration, args) =>
      var (args', changed) := RewriteArgs(args);
      var f := Function(path, plain, decoration, args');
      (match CallRule(f) case Some(replacement) => (replacement, true) case None => (f, changed))
    case Like(negated, _, _, subject, _) => (
      match LikeNeedle(e)
      case Some(needle) => (ContainsExpr(subject, needle, negated), true)
      case None => (e, false))
    case Binary(op, left, right) =>
      var (left', a) := Rewrite(left);
      var (right', b) := Rewrite(right);
      (Binary(op, left', right'), a || b)
    case Unary(op, operand) =>
      var (operand', changed) := Rewrite(operand);
      (Unary(op, operand'), changed)
    case Access(root, chain) =>
      var (root', a) := Rewrite(root);
      var (chain', b) := RewriteChain(chain, IsCall(root, "get", 2));
      (Access(root', chain'), a || b)
    case Column(_) => (e, false)
    case Text(_) => (e, false)
    case Number(_) => (e, false)
    case Case(_, _, _) => (e, false)
    case Opaque(_) => (e, false)
  }

  function RewriteArg(arg: Arg): (Arg, bool)
    decreases arg
  {
    match arg
    case Unnamed(e) => var (e', changed) := Rewrite(e); (Unnamed(e'), changed)
    case Named(tag, e) => var (e', changed) := Rewrite(e); (Named(tag, e'), changed)
    case Wildcard => (arg, false)
  }

  function RewriteArgs(args: seq<Arg>): (r: (seq<Arg>, bool))
    ensures |r.0| == |args|
    decreases args, 0
  {
    if args == [] then ([], false)
    else
      var (last, a) := RewriteArg(args[|args| - 1]);
      var (front, b) := RewriteArgs(args[..|args| - 1]);
      (front + [last], a || b)
  }

  function RewriteBound(b: Bound): (Bound, bool)
    decreases b
  {
    match b
    case Absent => (b, false)
    case Present(e) => var (e', changed) := Rewrite(e); (Present(e'), changed)
  }

  /** After `get`, a dotted field name becomes a subscript with that name. */
  function RewriteAccessor(a: Accessor, named: bool): (Accessor, bool)
    decreases a
  {
    match a
    case Dot(e) =>
      if named && e.Column? then (Index(Text(e.name)), true)
      else var (e', changed) := Rewrite(e); (Dot(e'), changed)
    case Index(e) => var (e', changed) := Rewrite(e); (Index(e'), changed)
    case Slice(lower, upper, stride) =>
      var (lower', a) := RewriteBound(lower);
      var (upper', b) := RewriteBound(upper);
      var (stride', c) := RewriteBound(stride);
      (Slice(lower', upper', stride'), a || b || c)
  }

  function RewriteChain(chain: seq<Accessor>, named: bool): (r: (seq<Accessor>, bool))
    ensures |r.0| == |chain|
    decreases chain, 0
  {
    if chain == [] then ([], false)
    else
      var (last, a) := RewriteAccessor(chain[|chain| - 1], named);
      var (front, b) := RewriteChain(chain[..|chain| - 1], named);
      (front + [last], a || b)
  }

  // ----- the pass reports a change exactly when there is one -----

  lemma {:induction false} ChangedExactly(e: Expr)
    ensures Rewrite(e).1 <==> Rewrite(e).0 != e
    decreases e, 1
  {
    hide CallRule, LikeNeedle, IsCall;
    match e {
      case Function(path, plain, decoration, args) =>
        ArgsChangedExactly(args);
        RuleChanges(e);
      case Like(_, _, _, _, _) =>
      case Extract(_, _) =>
      case Binary(_, left, right) =>
        ChangedExactly(left);
        ChangedExactly(right);
      case Unary(_, operand) =>
        ChangedExactly(operand);
      case Access(root, chain) =>
        ChangedExactly(root);
        ChainChangedExactly(chain, IsCall(root, "get", 2));
      case Column(_) =>
      case Text(_) =>
      case Number(_) =>
      case Case(_, _, _) =>
      case Opaque(_) =>
    }
  }

  /** A rule's replacement differs from the call it replaces even as that was before its arguments were rewritten. */
  lemma RuleChanges(e: Expr)
    requires e.Function?
    ensures var f := Function(e.path, e.plain, e.decoration, RewriteArgs(e.args).0);
      CallRule(f).Some? ==> CallRule(f).value != e
  {
    hide RewriteArgs;
    var f := Function(e.path, e.plain, e.decoration, RewriteArgs(e.args).0);
    if |e.path| == 1 && |e.path[0]| > 0 {
      assert Fold(e.path[0])[0] == LowerChar(e.path[0][0]);
    }
  }

  lemma {:induction false} ArgChangedExactly(arg: Arg)
    ensures RewriteArg(arg).1 <==> RewriteArg(arg).0 != arg
    decreases arg
  {
    hide Rewrite;
    match arg {
      case Unnamed(e) => ChangedExactly(e);
      case Named(_, e) => ChangedExactly(e);
      case Wildcard =>
    }
  }

  lemma {:induction false} ArgsChangedExactly(args: seq<Arg>)
    ensures RewriteArgs(args).1 <==> RewriteArgs(args).0 != args
    decreases args, 0
  {
    hide RewriteArg;
    if args != [] {
      var front := args[..|args| - 1];
      assert args == front + [args[|args| - 1]];
      ArgChangedExactly(args[|args| - 1]);
      ArgsChangedExactly(front);
    }
  }

  lemma {:induction false} BoundChangedExactly(b: Bound)
    ensures RewriteBound(b).1 <==> RewriteBound(b).0 != b
    decreases b
  {
    hide Rewrite;
    if b.Present? {
      ChangedExactly(b.e);
    }
  }

  lemma {:induction false} AccessorChangedExactly(a: Accessor, named: bool)
    ensures RewriteAccessor(a, named).1 <==> RewriteAccessor(a, named).0 != a
    decreases a
  {
    hide Rewrite, RewriteBound;
    match a {
      case Dot(e) => ChangedExactly(e);
      case Index(e) => ChangedExactly(e);
      case Slice(lower, upper, stride) =>
        BoundChangedExactly(lower);
        BoundChangedExactly(upper);
        BoundChangedExactly(stride);
    }
  }

  lemma {:induction false} ChainChangedExactly(chain: seq<Accessor>, named: bool)
    ensures RewriteChain(chain, named).1 <==> RewriteChain(chain, named).0 != chain
    decreases chain, 0
  {
    hide RewriteAccessor;
    if chain != [] {
      var front := chain[..|chain| - 1];
      assert chain == front + [chain[|chain| - 1]];
      AccessorChangedExactly(chain[|chain| - 1], named);
      ChainChangedExactly(front, named);
    }
  }

  lemma OneMoreArg(args: seq<Arg>, i: nat)
    requires i < |args|
    ensures RewriteArgs(args[..i + 1]).0 == RewriteArgs(args[..i]).0 + [RewriteArg(args[i]).0]
    ensures RewriteArgs(args[..i + 1]).1 <==> RewriteArgs(args[..i]).1 || RewriteArg(args[i]).1
  {
    hide RewriteArg;
    assert args[..i + 1][..i] == args[..i];
  }

  /** The loop over a call's arguments, with its flag. */
  method RewriteFunctionArgs(args: array<Arg>) returns (changed: bool)
    modifies args
    ensures (args[..], changed) == RewriteArgs(old(args[..]))
  {
    ghost var before := args[..];
    assert before[..0] == [] && RewriteArgs([]) == ([], false);
    hide RewriteArg, RewriteArgs;
    changed := false;
    for i := 0 to args.Length
      invariant args[..i] == RewriteArgs(before[..i]).0
      invariant changed == RewriteArgs(before[..i]).1
      invariant forall k | i <= k < args.Length :: args[k] == before[k]
    {
      var (arg, one) := RewriteArg(args[i]);
      OneMoreArg(before, i);
      ghost var front := args[..i];
      args[i] := arg;
      assert args[..i + 1] == front + [arg];
      changed := changed || one;
    }
    assert before[..args.Length] == before && args[..args.Length] == args[..];
  }
}
