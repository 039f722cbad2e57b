/** The pass preserves meaning: rule by rule, then for every expression on every row. */
module RewriteMeaning {
  import opened Ascii
  import opened BigEndian
  import opened Decimals
  import opened LikePatterns
  import opened Rewriter
  import opened SqlMeaning
  import opened Templates

  // ----- minutes -----

  lemma MulSign(k: int, m: int)
    requires m > 0
    ensures k >= 1 ==> k * m >= m
    ensures k <= -1 ==> k * m <= -m
  {
  }

  lemma DivUnique(t: int, m: int, q: int)
    requires m > 0 && q * m <= t < q * m + m
    ensures t / m == q && t % m == t - q * m
  {
    var k := t / m - q;
    assert t == (t / m) * m + t % m;
    assert (t / m) * m == q * m + k * m;
    MulSign(k, m);
  }

  lemma Shares(s: int, d: int, u: int)
    requires 0 <= s < d && u > 0
    ensures 0 <= s * u <= d * u - u
  {
    MulSign(d - s, u);
    assert (d - s) * u == d * u - s * u;
  }

  lemma Spread(b: int, d: int, s: int, u: int)
    ensures (b * d + s) * u == b * (d * u) + s * u
  {
    assert (b * d + s) * u == (b * d) * u + s * u;
  }

  /** Dividing twice is dividing once. */
  lemma DivTwice(t: int, u: int, d: int)
    requires u > 0 && d > 0
    ensures d * u > 0 && t / (d * u) == (t / u) / d
  {
    var a := t / u;
    var b, r := a / d, t % u;
    var s := a % d;
    Shares(s, d, u);
    assert t == a * u + r && a == b * d + s;
    Spread(b, d, s, u);
    MulSign(d, u);
    DivUnique(t, d * u, b);
  }

  /** What is left of an instant within its day, in seconds and a part of one. */
  lemma WithinDay(units: Units, ticks: int)
    ensures var day, s := 86_400 * units, (ticks / units) % 86_400;
      ticks - (ticks / day) * day == s * units + ticks % units
  {
    var second := ticks / units;
    DivTwice(ticks, units, 86_400);
    calc {
      ticks - (ticks / (86_400 * units)) * (86_400 * units);
      second * units + ticks % units - (second / 86_400) * 86_400 * units;
      (second - (second / 86_400) * 86_400) * units + ticks % units;
      (second % 86_400) * units + ticks % units;
    }
  }

  /** For every 64-bit timestamp of every resolution, before the epoch too, the UDF's minute is the civil one. */
  lemma MinutesAgree(units: Units, ticks: int64)
    ensures UdfMinute(units, ticks) == CivilMinute(units, ticks)
    ensures 0 <= CivilMinute(units, ticks) < 60
  {
    var second, day := ticks / units, 86_400 * units;
    var s, sinceMidnight := second % 86_400, ticks - (ticks / day) * day;
    WithinDay(units, ticks);
    DivUnique(sinceMidnight, units, s);
    DivTwice(sinceMidnight, units, 60);
    MinuteOfDay(second);
  }

  lemma MinuteOfDay(second: int)
    ensures ((second % 86_400) / 60) % 60 == (second % 3_600) / 60
  {
    var d, s := second / 86_400, second % 86_400;
    var h, x := s / 3_600, s % 3_600;
    DivUnique(second, 3_600, 24 * d + h);
    DivUnique(s, 60, 60 * h + x / 60);
    DivUnique(s / 60, 60, h);
  }

  // ----- arrays and maps -----

  /** `get` by position, for every 64-bit position: the largest one wraps around and is still out of bounds. */
  lemma GetRule(a: Value, i: int64)
    requires a.Array? ==> |a.items| <= MAX_I64
    ensures ArrayElement(a, Int(if i < 0 then 0 else Wrap(i + 1))) == GetValue(a, Int(i))
  {
  }

  // ----- what the rules build means what it replaces -----

  lemma Numerals(g: Engine)
    ensures NumberValue(g, "0") == Ok(Int(0)) && NumberValue(g, "1") == Ok(Int(1))
  {
    assert "0"[..0] == "" && "1"[..0] == "";
  }

  /** A generated call of one of the known functions, with its arguments evaluated. */
  lemma CallMeaning(g: Engine, name: string, args: seq<Expr>, b: Builtin)
    requires BuiltinNamed(name) == b && |args| == Arity(b)
    ensures var outcomes := EvalArgs(g, Call(name, args).args);
      && Eval(g, Call(name, args)) == CallValue(g, [name], true, 0, outcomes) && BuiltinOf([name], true, outcomes) == b
      && |outcomes| == |args| && forall i | 0 <= i < |args| :: outcomes[i] == Plain(Eval(g, args[i]))
  {
    hide CallValue, BuiltinNamed;
    forall i | 0 <= i < |args| ensures EvalArgs(g, Call(name, args).args)[i] == Plain(Eval(g, args[i])) {
      ArgAt(g, Call(name, args).args, i);
    }
  }

  lemma {:induction false} ArgAt(g: Engine, args: seq<Arg>, i: nat)
    requires i < |args|
    ensures EvalArgs(g, args)[i] == EvalArg(g, args[i])
    decreases |args|
  {
    hide Eval;
    if i < |args| - 1 {
      ArgAt(g, args[..|args| - 1], i);
    }
  }

  /** The index that the expression built for `get` gives to `array_element`. */
  function ShiftedIndex(g: Engine, i: Outcome): Outcome {
    Branch(BinaryValue(g, Lt, i, Ok(Int(0))), Ok(Int(0)), BinaryValue(g, Plus, i, Ok(Int(1))))
  }

  /** No array is longer than 64 bits can count. */
  predicate Countable(a: Outcome) { a.Ok? && a.v.Array? ==> |a.v.items| <= MAX_I64 }

  /** What the engine makes of a value that is no integer, compared with zero and with one added to it. */
  function BelowZero(g: Engine, v: Value): Outcome { g.binary(Lt, Ok(v), Ok(Int(0))) }

  function PlusOne(g: Engine, v: Value): Outcome { g.binary(Plus, Ok(v), Ok(Int(1))) }

  /** An index that is no integer, on a value that is not NULL: it is below zero and there is no array, or it cannot
      be compared, or it is not below zero and adding one to it gives an error of type or a value that is no index
      either. */
  predicate StaysNoIndex(g: Engine, a: Value, v: Value) {
    match BelowZero(g, v)
    case Err(error) => error.TypeError?
    case Ok(Bool(true)) => !a.Array?
    case Ok(b) =>
      if b == Bool(false) || b == Null then
        match PlusOne(g, v)
        case Err(error) => error.TypeError?
        case Ok(w) => !w.Null? && !(a.Array? && w.Int?)
      else true
  }

  /** On NULL, neither operator may fail where its outcome is needed. */
  predicate StaysQuiet(g: Engine, v: Value) {
    match BelowZero(g, v)
    case Err(_) => false
    case Ok(Bool(true)) => true
    case Ok(b) => (b == Bool(false) || b == Null) && PlusOne(g, v).Ok?
  }

  predicate IndexTyped(g: Engine, a: Outcome, i: Outcome) {
    || a.Err? || i.Err? || i.v.Null? || i.v.Int?
    || if a.v.Null? then StaysQuiet(g, i.v) else StaysNoIndex(g, a.v, i.v)
  }

  lemma GetShifted(g: Engine, items: Expr, index: Expr)
    ensures Eval(g, GetExpr(items, index))
      == Strict2(Eval(g, items), ShiftedIndex(g, Eval(g, index)), ArrayElement)
  {
    hide ArrayElement, BuiltinNamed, BuiltinOf, NumberValue;
    Names();
    var i := Eval(g, index);
    var below, next := Binary(Lt, index, Number("0")), Binary(Plus, index, Number("1"));
    var shifted := Case(below, Number("0"), next);
    Numerals(g);
    CallMeaning(g, "array_element", [items, shifted], ArrayElementFn);
    assert Eval(g, below) == BinaryValue(g, Lt, i, Ok(Int(0))) && Eval(g, next) == BinaryValue(g, Plus, i, Ok(Int(1)));
    assert Eval(g, shifted) == Branch(Eval(g, below), Ok(Int(0)), Eval(g, next));
  }

  /** The expression built for `get` means what it replaces, if and only if its index is an integer, NULL or an error,
      or the engine's operators on it give no index either. */
  lemma GetMeaning(g: Engine, items: Expr, index: Expr)
    requires Countable(Eval(g, items))
    ensures Eval(g, GetExpr(items, index)) == Strict2(Eval(g, items), Eval(g, index), GetValue)
      <==> IndexTyped(g, Eval(g, items), Eval(g, index))
  {
    hide Eval, GetExpr;
    var a, i := Eval(g, items), Eval(g, index);
    GetShifted(g, items, index);
    if a.Ok? && i.Ok? && i.v.Int? && !a.v.Null? {
      assert ShiftedIndex(g, i) == Ok(Int(if i.v.n < 0 then 0 else Wrap(i.v.n + 1)));
      GetRule(a.v, i.v.n);
    }
  }

  /** For instance, an index that is no integer but that the engine finds below zero, as it may a fraction: the original
      is an error of type, and the expression built for it is NULL. */
  lemma GetAtNonInteger(g: Engine, items: Expr, index: Expr, v: Value)
    requires Eval(g, items).Ok? && Eval(g, items).v.Array?
    requires Eval(g, index) == Ok(v) && !v.Int? && !v.Null? && BelowZero(g, v) == Ok(Bool(true))
    ensures Eval(g, GetExpr(items, index)) == Ok(Null)
    ensures Strict2(Eval(g, items), Eval(g, index), GetValue) == Err(TypeError)
    ensures !IndexTyped(g, Eval(g, items), Eval(g, index))
  {
    hide Eval, GetExpr;
    GetShifted(g, items, index);
  }

  /** The expression built for `element_at` means what it replaces, if and only if it is not given an array and an
      integer: the rule is for maps, and an array has no value under it. */
  lemma ElementAtMeaning(g: Engine, m: Expr, key: Expr)
    ensures Eval(g, ElementAtExpr(m, key)) == Strict2(Eval(g, m), Eval(g, key), ElementAt)
      <==> !(Eval(g, m).Ok? && Eval(g, m).v.Array? && Eval(g, key).Ok? && Eval(g, key).v.Int?)
  {
    hide BuiltinNamed, BuiltinOf, NumberValue;
    Names();
    var extracted := Call("map_extract", [m, key]);
    Numerals(g);
    CallMeaning(g, "map_extract", [m, key], MapExtractFn);
    CallMeaning(g, "array_element", [extracted, Number("1")], ArrayElementFn);
  }

  /** A group number that the UDF can take, in a spelling that stands for it. */
  predicate Capturing(replacement: string)
    requires CaptureIndex(replacement).Some?
  {
    CaptureIndex(replacement).value <= MAX_I64 && !BracedBackslash(replacement)
  }

  lemma CaptureCall(g: Engine, source: Expr, pattern: string, i: nat)
    requires i <= MAX_I64
    ensures Eval(g, CaptureExpr(source, pattern, i))
      == ReplaceCapture(g, Eval(g, source), Ok(Chars(pattern)), Ok(Int(i)))
  {
    hide BuiltinNamed, BuiltinOf, Decimal, DecimalValue, ReplaceCapture;
    Names();
    CallMeaning(g, REGEXP_REPLACE_CAPTURE_UDF, [source, Text(pattern), Number(Decimal(i))], CaptureFn);
    DecimalRoundTrip(i);
  }

  /** Replacing the first match by one group is what the capture UDF does. */
  lemma CaptureMeaning(g: Engine, source: Expr, pattern: string, replacement: string)
    requires CaptureIndex(replacement).Some? && Capturing(replacement)
    ensures Eval(g, CaptureExpr(source, pattern, CaptureIndex(replacement).value))
      == RegexpReplace(g, Eval(g, source), Ok(Chars(pattern)), Ok(Chars(replacement)))
  {
    hide Eval, CaptureExpr, CaptureIndex, Expand, BracedBackslash;
    CaptureCall(g, source, pattern, CaptureIndex(replacement).value);
    var s := Eval(g, source);
    if s.Ok? && s.v.Chars? && g.firstMatch(pattern, s.v.s).Found? {
      SpellingExpands(replacement, g.firstMatch(pattern, s.v.s).groups);
    }
  }

  predicate MatchesIn(g: Engine, s: string, pattern: string) {
    var m := g.firstMatch(pattern, s); g.validPattern(pattern) && m.Found? && m.start <= m.end <= |s|
  }

  /** Where the pattern matches, a recognized backslash before braces is replaced by the group and meant itself: the two
      agree exactly when that is what the group matched. */
  lemma BracedBackslashDiffers(g: Engine, s: string, pattern: string, replacement: string)
    requires MatchesIn(g, s, pattern) && CaptureIndex(replacement).Some? && CaptureIndex(replacement).value <= MAX_I64
    requires BracedBackslash(replacement)
    ensures Eval(g, CaptureExpr(Text(s), pattern, CaptureIndex(replacement).value))
      == RegexpReplace(g, Ok(Chars(s)), Ok(Chars(pattern)), Ok(Chars(replacement)))
      <==> GroupText(g.firstMatch(pattern, s).groups, CaptureIndex(replacement).value) == replacement
  {
    hide CaptureExpr, CaptureIndex, Expand, BracedBackslash, GroupText;
    var i := CaptureIndex(replacement).value;
    CaptureCall(g, Text(s), pattern, i);
    var m := g.firstMatch(pattern, s);
    SpellingExpands(replacement, m.groups);
    SameMiddle(s[..m.start], s[m.end..], GroupText(m.groups, i), replacement);
  }

  lemma SameMiddle(front: string, back: string, a: string, b: string)
    ensures front + a + back == front + b + back <==> a == b
  {
    if front + a + back == front + b + back {
      assert |a| == |b|;
      assert a == (front + a + back)[|front|..|front| + |a|];
      assert b == (front + b + back)[|front|..|front| + |b|];
    }
  }

  /** A capture number past the largest 64-bit integer is recognized, but the UDF cannot take it: the rewritten call
      fails on every text where the original gives one. */
  lemma CaptureTooLarge(g: Engine, s: string, pattern: string, replacement: string)
    requires CaptureIndex(replacement).Some? && g.validPattern(pattern)
    requires var n := g.number(Decimal(CaptureIndex(replacement).value)); n.Err? || !n.v.Int?
    ensures RegexpReplace(g, Ok(Chars(s)), Ok(Chars(pattern)), Ok(Chars(replacement))).Ok?
    ensures CaptureIndex(replacement).value > MAX_I64 ==>
      Eval(g, CaptureExpr(Text(s), pattern, CaptureIndex(replacement).value)).Err?
  {
    hide CaptureIndex, BuiltinNamed, BuiltinOf, Decimal, DecimalValue;
    Names();
    var i := CaptureIndex(replacement).value;
    CallMeaning(g, REGEXP_REPLACE_CAPTURE_UDF, [Text(s), Text(pattern), Number(Decimal(i))], CaptureFn);
    DecimalRoundTrip(i);
  }

  /** What the rule builds for a recognized replacement gives what the original call does. */
  predicate CapturePreserved(g: Engine, source: Expr, pattern: string, replacement: string)
    requires CaptureIndex(replacement).Some?
  {
    Eval(g, CaptureExpr(source, pattern, CaptureIndex(replacement).value))
      == RegexpReplace(g, Eval(g, source), Ok(Chars(pattern)), Ok(Chars(replacement)))
  }

  /** An engine in which every pattern matches the empty text in front, with no group, and in which a number that is no
      64-bit integer is an error. */
  function Plainest(): Engine {
    var none := Err(TypeError);
    Engine(_ => none, _ => none, _ => none, (_, _, _) => none, (_, _) => none, (_, _, _, _) => none,
           (_, _, _, _, _) => none, (_, _) => none, (_, _) => none, (_, _) => none, (_, _) => none,
           (_, _, _, _) => none, _ => true, (_, _) => Found(0, 0, []))
  }

  /** Whatever the engine, the source and the pattern, the rule for one captured group preserves the call, exactly when
      the group's number fits and its spelling stands for it. */
  lemma CaptureExact(replacement: string)
    requires CaptureIndex(replacement).Some?
    ensures Capturing(replacement) <==> forall g: Engine, source: Expr, pattern: string ::
        CapturePreserved(g, source, pattern, replacement)
  {
    hide CaptureIndex, BracedBackslash, Eval, CaptureExpr, RegexpReplace;
    if Capturing(replacement) {
      forall g: Engine, source: Expr, pattern: string ensures CapturePreserved(g, source, pattern, replacement) {
        CaptureMeaning(g, source, pattern, replacement);
      }
    } else {
      CaptureFails(replacement);
      assert !CapturePreserved(Plainest(), Text(""), "", replacement);
    }
  }

  lemma CaptureFails(replacement: string)
    requires CaptureIndex(replacement).Some? && !Capturing(replacement)
    ensures !CapturePreserved(Plainest(), Text(""), "", replacement)
  {
    hide CaptureIndex, BracedBackslash, CaptureExpr;
    var g := Plainest();
    assert Eval(g, Text("")) == Ok(Chars(""));
    if CaptureIndex(replacement).value > MAX_I64 {
      CaptureTooLarge(g, "", "", replacement);
    } else {
      BracedNotEmpty(replacement);
      BracedBackslashDiffers(g, "", "", replacement);
    }
  }

  lemma BracedNotEmpty(replacement: string)
    requires BracedBackslash(replacement)
    ensures |replacement| >= 2
  {
  }

  lemma LikeMeaning(g: Engine, e: Expr)
    requires e.Like? && LikeNeedle(e).Some? && '\\' !in LikeNeedle(e).value
    ensures Eval(g, ContainsExpr(e.subject, LikeNeedle(e).value, e.negated)) == Eval(g, e)
  {
    hide Matches, Contains, BuiltinNamed, BuiltinOf;
    Names();
    var needle, s := LikeNeedle(e).value, Eval(g, e.subject);
    CallMeaning(g, "contains", [e.subject, Text(needle)], ContainsFn);
    if s.Ok? && s.v.Chars? {
      LiteralLike(needle, s.v.s);
    }
  }

  lemma SourceNames()
    ensures BuiltinNamed("if") == IfFn && BuiltinNamed("get") == GetFn && BuiltinNamed("element_at") == ElementAtFn
    ensures BuiltinNamed("regexp_replace") == RegexpReplaceFn
  {
    hide Fold;
    SourceLower();
    TargetLower();
  }

  lemma TargetNames()
    ensures BuiltinNamed("array_element") == ArrayElementFn && BuiltinNamed("map_extract") == MapExtractFn
    ensures BuiltinNamed("contains") == ContainsFn
    ensures BuiltinNamed(EXTRACT_MINUTE_UDF) == MinuteFn && BuiltinNamed(REGEXP_REPLACE_CAPTURE_UDF) == CaptureFn
  {
    hide Fold;
    SourceLower();
    TargetLower();
  }

  lemma SourceLower()
    ensures Fold("if") == "if" && Fold("get") == "get" && Fold("element_at") == "element_at"
    ensures Fold("regexp_replace") == "regexp_replace"
  {
    hide Fold;
    FoldLower("if");
    FoldLower("get");
    FoldLower("element_at");
    FoldLower("regexp_replace");
  }

  lemma TargetLower()
    ensures Fold("array_element") == "array_element"
    ensures Fold("map_extract") == "map_extract" && Fold("contains") == "contains"
    ensures Fold(EXTRACT_MINUTE_UDF) == EXTRACT_MINUTE_UDF
    ensures Fold(REGEXP_REPLACE_CAPTURE_UDF) == REGEXP_REPLACE_CAPTURE_UDF
  {
    hide Fold;
    FoldLower("array_element");
    FoldLower("map_extract");
    FoldLower("contains");
    FoldLower(EXTRACT_MINUTE_UDF);
    FoldLower(REGEXP_REPLACE_CAPTURE_UDF);
  }

  /** No two of the known functions share a name. */
  lemma Names()
    ensures BuiltinNamed("if") == IfFn && BuiltinNamed("get") == GetFn && BuiltinNamed("element_at") == ElementAtFn
    ensures BuiltinNamed("regexp_replace") == RegexpReplaceFn && BuiltinNamed("array_element") == ArrayElementFn
    ensures BuiltinNamed("map_extract") == MapExtractFn && BuiltinNamed("contains") == ContainsFn
    ensures BuiltinNamed(EXTRACT_MINUTE_UDF) == MinuteFn && BuiltinNamed(REGEXP_REPLACE_CAPTURE_UDF) == CaptureFn
  {
    hide BuiltinNamed;
    SourceNames();
    TargetNames();
  }
}
