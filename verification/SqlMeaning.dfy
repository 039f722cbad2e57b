/** What expressions mean on a row: NULL, errors, branches taken lazily, and the functions the rules know. */
module SqlMeaning {
  import opened Wrappers
  import opened Ascii
  import opened BigEndian
  import opened Decimals
  import opened LikePatterns
  import opened Rewriter
  import opened Templates

  datatype Value =
    | Null
    | Bool(b: bool)
    | Int(n: int64)
    | Chars(s: string)
    | Timestamp(unitsPerSecond: Units, ticks: int64)
    | Array(items: seq<Value>)
    | MapOf(entries: seq<(Value, Value)>)
    | OtherValue(id: nat)

  /** The four resolutions of a timestamp. */
  type Units = u: int | u == 1 || u == 1_000 || u == 1_000_000 || u == 1_000_000_000 witness 1

  datatype SqlError = TypeError | PatternError | IndexError | Raised(code: nat)

  datatype Outcome = Ok(v: Value) | Err(error: SqlError)

  datatype ArgOutcome = Plain(o: Outcome) | Tagged(tag: string, o: Outcome) | Star

  /** Where a pattern first matches, and the text of each group that took part. */
  datatype Match = NoMatch | Found(start: nat, end: nat, groups: seq<Option<string>>)

  /** The row and everything the rules leave alone, as arbitrary functions of the outcomes they are given. */
  datatype Engine = Engine(
    column: string -> Outcome,
    other: nat -> Outcome,
    number: string -> Outcome,
    binary: (BinaryOp, Outcome, Outcome) -> Outcome,
    unary: (UnaryOp, Outcome) -> Outcome,
    call: (seq<string>, bool, nat, seq<ArgOutcome>) -> Outcome,
    like: (bool, bool, bool, Outcome, Outcome) -> Outcome,
    datePart: (DateField, Value) -> Outcome,
    field: (Value, string) -> Outcome,
    dot: (Value, Outcome) -> Outcome,
    subscript: (Value, Outcome) -> Outcome,
    slice: (Value, Option<Outcome>, Option<Outcome>, Option<Outcome>) -> Outcome,
    validPattern: string -> bool,
    firstMatch: (string, string) -> Match)

  // ----- integers -----

  const MAX_I64 := 0x7fff_ffff_ffff_ffff

  /** 64-bit addition wraps around. */
  function Wrap(n: int): int64 {
    var m := n % 0x1_0000_0000_0000_0000;
    if m > MAX_I64 then m - 0x1_0000_0000_0000_0000 else m
  }

  function NumberValue(g: Engine, digits: string): Outcome {
    if digits != "" && AllDigits(digits) && DecimalValue(digits) <= MAX_I64 then Ok(Int(DecimalValue(digits)))
    else g.number(digits)
  }

  // ----- operators -----

  function BinaryValue(g: Engine, op: BinaryOp, l: Outcome, r: Outcome): Outcome {
    match (op, l, r)
    case (Lt, Err(_), _) => l
    case (Plus, Err(_), _) => l
    case (Lt, Ok(Null), Ok(_)) => Ok(Null)
    case (Plus, Ok(Null), Ok(_)) => Ok(Null)
    case (Lt, Ok(Int(m)), Ok(Int(n))) => Ok(Bool(m < n))
    case (Plus, Ok(Int(m)), Ok(Int(n))) => Ok(Int(Wrap(m + n)))
    case _ => g.binary(op, l, r)
  }

  function NotValue(g: Engine, o: Outcome): Outcome {
    match o
    case Ok(Bool(b)) => Ok(Bool(!b))
    case Ok(Null) => o
    case Err(_) => o
    case _ => g.unary(Not, o)
  }

  // ----- functions of one, two or three evaluated arguments -----

  /** An error among the arguments is the first one's; a NULL among them makes the result NULL. */
  function Strict2(a: Outcome, b: Outcome, f: (Value, Value) -> Outcome): Outcome {
    match (a, b)
    case (Err(_), _) => a
    case (_, Err(_)) => b
    case (Ok(x), Ok(y)) => if x.Null? || y.Null? then Ok(Null) else f(x, y)
  }

  /** Databricks `get`: counts from zero, and is NULL outside the array. */
  function GetValue(a: Value, i: Value): Outcome {
    if a.Array? && i.Int? then if 0 <= i.n < |a.items| then Ok(a.items[i.n]) else Ok(Null) else Err(TypeError)
  }

  /** `array_element`: counts from one, or from the end when negative; NULL outside the array and at zero. */
  function ArrayElement(a: Value, i: Value): Outcome {
    if a.Array? && i.Int? then
      if 0 < i.n <= |a.items| then Ok(a.items[i.n - 1])
      else if i.n < 0 <= |a.items| + i.n then Ok(a.items[|a.items| + i.n])
      else Ok(Null)
    else Err(TypeError)
  }

  function Find(entries: seq<(Value, Value)>, key: Value): Option<Value> {
    if entries == [] then None
    else if entries[0].0 == key then Some(entries[0].1)
    else Find(entries[1..], key)
  }

  /** Databricks `element_at`: a map's value for a key, or an array's element counted from one. */
  function ElementAt(m: Value, key: Value): Outcome {
    if m.MapOf? then match Find(m.entries, key) case Some(v) => Ok(v) case None => Ok(Null)
    else if m.Array? && key.Int? && key.n == 0 then Err(IndexError)
    else ArrayElement(m, key)
  }

  /** `map_extract`: the value as a list of one, or an empty list. */
  function MapExtract(m: Value, key: Value): Outcome {
    if m.MapOf? then match Find(m.entries, key) case Some(v) => Ok(Array([v])) case None => Ok(Array([]))
    else Err(TypeError)
  }

  function ContainsValue(s: Value, needle: Value): Outcome {
    if s.Chars? && needle.Chars? then Ok(Bool(Contains(s.s, needle.s))) else Err(TypeError)
  }

  /** The text with its first match replaced by what the groups give; unchanged when nothing matches. */
  function ReplaceFirst(g: Engine, pattern: string, s: string, substitute: seq<Option<string>> -> string): string {
    match g.firstMatch(pattern, s)
    case NoMatch => s
    case Found(start, end, groups) => if start <= end <= |s| then s[..start] + substitute(groups) + s[end..] else s
  }

  function RegexpReplace(g: Engine, s: Outcome, pattern: Outcome, replacement: Outcome): Outcome {
    match (s, pattern, replacement)
    case (Err(_), _, _) => s
    case (_, Err(_), _) => pattern
    case (_, _, Err(_)) => replacement
    case (Ok(v), Ok(Chars(p)), Ok(Chars(r))) =>
      if !g.validPattern(p) then Err(PatternError)
      else if v.Null? then Ok(Null)
      else if v.Chars? then Ok(Chars(ReplaceFirst(g, p, v.s, groups => Expand(r, groups))))
      else Err(TypeError)
    case (Ok(_), Ok(_), Ok(_)) => Err(TypeError)
  }

  /** The capture UDF: its pattern is a string and its index a non-negative 64-bit integer. */
  function ReplaceCapture(g: Engine, s: Outcome, pattern: Outcome, index: Outcome): Outcome {
    match (s, pattern, index)
    case (Err(_), _, _) => s
    case (_, Err(_), _) => pattern
    case (_, _, Err(_)) => index
    case (Ok(v), Ok(Chars(p)), Ok(Int(i))) =>
      if i < 0 then Err(IndexError)
      else if !g.validPattern(p) then Err(PatternError)
      else if v.Null? then Ok(Null)
      else if v.Chars? then Ok(Chars(ReplaceFirst(g, p, v.s, groups => GroupText(groups, i))))
      else Err(TypeError)
    case (Ok(_), Ok(_), Ok(_)) => Err(TypeError)
  }

  // ----- minutes -----

  const SECONDS_PER_HOUR := 3600

  /** The minute of the civil day an instant falls in, days being counted from the epoch. */
  function CivilMinute(units: Units, ticks: int64): int {
    var day := 86_400 * units;
    var sinceMidnight := ticks - (ticks / day) * day;
    (sinceMidnight / (60 * units)) % 60
  }

  /** The UDF's arithmetic: a floored second, its place in the hour, the minutes in that. */
  function UdfMinute(units: Units, ticks: int64): int { ((ticks / units) % SECONDS_PER_HOUR) / 60 }

  function MinuteValue(g: Engine, o: Outcome, minute: (Units, int64) -> int): Outcome {
    match o
    case Err(_) => o
    case Ok(Null) => o
    case Ok(Timestamp(units, ticks)) => Ok(Int(Wrap(minute(units, ticks))))
    case Ok(v) => g.datePart(Minute, v)
  }

  // ----- expressions -----

  function LikeValue(g: Engine, negated: bool, anyOf: bool, escaped: bool, s: Outcome, pattern: Outcome): Outcome {
    if anyOf || escaped then g.like(negated, anyOf, escaped, s, pattern)
    else
      Strict2(s, pattern, (x: Value, p: Value) =>
        if x.Chars? && p.Chars? then Ok(Bool(Matches(p.s, x.s) != negated)) else Err(TypeError))
  }

  function Branch(condition: Outcome, result: Outcome, otherwise: Outcome): Outcome {
    match condition
    case Err(_) => condition
    case Ok(Bool(b)) => if b then result else otherwise
    case Ok(Null) => otherwise
    case Ok(_) => Err(TypeError)
  }

  datatype Builtin =
    | IfFn | GetFn | ElementAtFn | RegexpReplaceFn
    | ArrayElementFn | MapExtractFn | ContainsFn | MinuteFn | CaptureFn
    | UserFn

  function BuiltinNamed(name: string): Builtin {
    if SameName(name, "if") then IfFn
    else if SameName(name, "get") then GetFn
    else if SameName(name, "element_at") then ElementAtFn
    else if SameName(name, "regexp_replace") then RegexpReplaceFn
    else if SameName(name, "array_element") then ArrayElementFn
    else if SameName(name, "map_extract") then MapExtractFn
    else if SameName(name, "contains") then ContainsFn
    else if SameName(name, EXTRACT_MINUTE_UDF) then MinuteFn
    else if SameName(name, REGEXP_REPLACE_CAPTURE_UDF) then CaptureFn
    else UserFn
  }

  function Arity(b: Builtin): nat {
    match b
    case IfFn => 3
    case GetFn => 2
    case ElementAtFn => 2
    case RegexpReplaceFn => 3
    case ArrayElementFn => 2
    case MapExtractFn => 2
    case ContainsFn => 2
    case MinuteFn => 1
    case CaptureFn => 3
    case UserFn => 0
  }

  /** The known function that a call is to: by its name alone, plainly, with as many unnamed arguments as it takes. */
  function BuiltinOf(path: seq<string>, plain: bool, args: seq<ArgOutcome>): (b: Builtin)
    ensures !b.UserFn? ==> |args| == Arity(b) && forall i | 0 <= i < |args| :: args[i].Plain?
  {
    if |path| == 1 && plain && |args| == Arity(BuiltinNamed(path[0])) && (forall i | 0 <= i < |args| :: args[i].Plain?)
    then BuiltinNamed(path[0]) else UserFn
  }

  function CallValue(g: Engine, path: seq<string>, plain: bool, decoration: nat, args: seq<ArgOutcome>): Outcome {
    hide BuiltinOf, BuiltinNamed;
    match BuiltinOf(path, plain, args)
    case IfFn => Branch(args[0].o, args[1].o, args[2].o)
    case GetFn => Strict2(args[0].o, args[1].o, GetValue)
    case ElementAtFn => Strict2(args[0].o, args[1].o, ElementAt)
    case RegexpReplaceFn => RegexpReplace(g, args[0].o, args[1].o, args[2].o)
    case ArrayElementFn => Strict2(args[0].o, args[1].o, ArrayElement)
    case MapExtractFn => Strict2(args[0].o, args[1].o, MapExtract)
    case ContainsFn => Strict2(args[0].o, args[1].o, ContainsValue)
    case MinuteFn => MinuteValue(g, args[0].o, UdfMinute)
    case CaptureFn => ReplaceCapture(g, args[0].o, args[1].o, args[2].o)
    case UserFn => g.call(path, plain, decoration, args)
  }

  function Eval(g: Engine, e: Expr): Outcome
    decreases e, 1
  {
    match e
    case Column(name) => g.column(name)
    case Text(text) => Ok(Chars(text))
    case Number(digits) => NumberValue(g, digits)
    case Binary(op, left, right) => BinaryValue(g, op, Eval(g, left), Eval(g, right))
    case Unary(uop, operand) => if uop.Not? then NotValue(g, Eval(g, operand)) else g.unary(uop, Eval(g, operand))
    case Function(path, plain, decoration, args) => CallValue(g, path, plain, decoration, EvalArgs(g, args))
    case Like(negated, anyOf, escaped, subject, pattern) =>
      LikeValue(g, negated, anyOf, escaped, Eval(g, subject), Eval(g, pattern))
    case Extract(field, source) =>
      if field.Minute? || field.Minutes? then MinuteValue(g, Eval(g, source), CivilMinute)
      else DatePart(g, field, Eval(g, source))
    case Case(condition, result, otherwise) => Branch(Eval(g, condition), Eval(g, result), Eval(g, otherwise))
    case Access(root, chain) => EvalChain(g, Eval(g, root), chain)
    case Opaque(id) => g.other(id)
  }

  function DatePart(g: Engine, field: DateField, o: Outcome): Outcome {
    match o
    case Err(_) => o
    case Ok(v) => g.datePart(field, v)
  }

  function EvalArg(g: Engine, arg: Arg): ArgOutcome
    decreases arg
  {
    match arg
    case Unnamed(e) => Plain(Eval(g, e))
    case Named(tag, e) => Tagged(tag, Eval(g, e))
    case Wildcard => Star
  }

  function EvalArgs(g: Engine, args: seq<Arg>): (r: seq<ArgOutcome>)
    ensures |r| == |args|
    decreases args, 0
  {
    if args == [] then [] else EvalArgs(g, args[..|args| - 1]) + [EvalArg(g, args[|args| - 1])]
  }

  function EvalBound(g: Engine, b: Bound): Option<Outcome>
    decreases b
  {
    match b
    case Absent => None
    case Present(e) => Some(Eval(g, e))
  }

  /** One access. A dotted name and a subscript by a string are the same named access. */
  function EvalAccessor(g: Engine, v: Value, a: Accessor): Outcome
    decreases a
  {
    match a
    case Dot(e) => if e.Column? then g.field(v, e.name) else g.dot(v, Eval(g, e))
    case Index(e) => (match Eval(g, e) case Ok(Chars(name)) => g.field(v, name) case o => g.subscript(v, o))
    case Slice(lower, upper, stride) => g.slice(v, EvalBound(g, lower), EvalBound(g, upper), EvalBound(g, stride))
  }

  function EvalChain(g: Engine, root: Outcome, chain: seq<Accessor>): Outcome
    decreases chain, 0
  {
    if chain == [] then root
    else
      match EvalChain(g, root, chain[..|chain| - 1])
      case Err(error) => Err(error)
      case Ok(v) => EvalAccessor(g, v, chain[|chain| - 1])
  }
}
