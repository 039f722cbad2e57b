/** Metadata name patterns: wildcards, escapes, and when an exact name can be looked up instead of listing. */
module MetadataPatterns {
  import opened Wrappers
  import opened RowLists

  predicate IsWildcard(c: char) { c == '%' || c == '_' || c == '*' }

  // ----- what the three scanners compute; a backslash escapes the next character, and the last one itself -----

  predicate HasWildcard(p: string) {
    if p == "" then false
    else if p[0] == '\\' then |p| > 1 && HasWildcard(p[2..])
    else IsWildcard(p[0]) || HasWildcard(p[1..])
  }

  function Strip(p: string): string {
    if p == "" then ""
    else if p[0] == '\\' then if |p| > 1 then [p[1]] + Strip(p[2..]) else "\\"
    else [p[0]] + Strip(p[1..])
  }

  /** One piece of the anchored regular expression. */
  datatype Atom = Exactly(c: char) | AnyOne | AnyRun

  function AtomOf(c: char): Atom { if c == '%' || c == '*' then AnyRun else if c == '_' then AnyOne else Exactly(c) }

  function Atoms(p: string): seq<Atom> {
    if p == "" then []
    else if p[0] == '\\' then if |p| > 1 then [Exactly(p[1])] + Atoms(p[2..]) else [Exactly('\\')]
    else [AtomOf(p[0])] + Atoms(p[1..])
  }

  /** The whole name matches, letters regardless of case by the engine's folding; a dot is any character but a
      newline. */
  predicate Matches(fold: char -> char, atoms: seq<Atom>, name: string)
    decreases |atoms| + |name|
  {
    if atoms == [] then name == ""
    else
      match atoms[0]
      case Exactly(c) => name != "" && fold(name[0]) == fold(c) && Matches(fold, atoms[1..], name[1..])
      case AnyOne => name != "" && name[0] != '\n' && Matches(fold, atoms[1..], name[1..])
      case AnyRun =>
        Matches(fold, atoms[1..], name) || (name != "" && name[0] != '\n' && Matches(fold, atoms, name[1..]))
  }

  predicate SameFolded(fold: char -> char, a: string, b: string) {
    |a| == |b| && forall i | 0 <= i < |a| :: fold(a[i]) == fold(b[i])
  }

  // ----- the scanners -----

  method ContainsMetadataWildcard(value: string) returns (r: bool)
    ensures r <==> HasWildcard(value)
  {
    var escaped := false;
    for i := 0 to |value|
      invariant escaped ==> i > 0 && value[i - 1] == '\\'
      invariant HasWildcard(value) <==> HasWildcard(value[if escaped then i - 1 else i..])
    {
      Rest(value, i);
      if escaped {
        Rest(value, i - 1);
        escaped := false;
      } else if value[i] == '\\' {
        escaped := true;
      } else if IsWildcard(value[i]) {
        return true;
      }
    }
    r := false;
  }

  lemma Rest(s: string, i: nat)
    requires i < |s|
    ensures s[i..] != "" && s[i..][0] == s[i] && s[i..][1..] == s[i + 1..]
    ensures i + 1 < |s| ==> s[i..][1] == s[i + 1] && s[i..][2..] == s[i + 2..]
  {
  }

  lemma StripStep(s: string, i: nat)
    requires i <= |s|
    ensures i == |s| ==> Strip(s[i..]) == ""
    ensures i < |s| ==>
      Strip(s[i..]) ==
        if s[i] == '\\' && i + 1 < |s| then [s[i + 1]] + Strip(s[i + 2..]) else [s[i]] + Strip(s[i + 1..])
  {
    if i < |s| {
      Rest(s, i);
    }
  }

  lemma AtomsStep(s: string, i: nat)
    requires i <= |s|
    ensures i == |s| ==> Atoms(s[i..]) == []
    ensures i < |s| && s[i] != '\\' ==> Atoms(s[i..]) == [AtomOf(s[i])] + Atoms(s[i + 1..])
    ensures i + 1 < |s| && s[i] == '\\' ==> Atoms(s[i..]) == [Exactly(s[i + 1])] + Atoms(s[i + 2..])
    ensures i + 1 == |s| && s[i] == '\\' ==> Atoms(s[i..]) == [Exactly('\\')]
  {
    if i < |s| {
      Rest(s, i);
    }
  }

  lemma Append<T>(done: seq<T>, next: T, rest: seq<T>)
    ensures done + ([next] + rest) == done + [next] + rest
  {
  }

  method StripMetadataEscapes(value: string) returns (stripped: string)
    ensures stripped == Strip(value)
  {
    hide Strip;
    stripped := "";
    var i := 0;
    assert value[0..] == value;
    while i < |value|
      invariant 0 <= i <= |value|
      invariant stripped + Strip(value[i..]) == Strip(value)
    {
      StripStep(value, i);
      if value[i] == '\\' && i + 1 < |value| {
        Append(stripped, value[i + 1], Strip(value[i + 2..]));
        stripped := stripped + [value[i + 1]];
        i := i + 2;
      } else {
        Append(stripped, value[i], Strip(value[i + 1..]));
        stripped := stripped + [value[i]];
        i := i + 1;
      }
    }
    StripStep(value, i);
    assert stripped + "" == stripped;
  }

  method MetadataPatternRegex(pattern: string) returns (atoms: seq<Atom>)
    ensures atoms == Atoms(pattern)
  {
    hide Atoms, AtomOf;
    atoms := [];
    var escaped := false;
    assert pattern[0..] == pattern;
    for i := 0 to |pattern|
      invariant escaped ==> i > 0 && pattern[i - 1] == '\\'
      invariant Atoms(pattern) == atoms + Atoms(pattern[if escaped then i - 1 else i..])
    {
      if escaped {
        AtomsStep(pattern, i - 1);
        Append(atoms, Exactly(pattern[i]), Atoms(pattern[i + 1..]));
        atoms := atoms + [Exactly(pattern[i])];
        escaped := false;
      } else if pattern[i] == '\\' {
        escaped := true;
      } else {
        AtomsStep(pattern, i);
        Append(atoms, AtomOf(pattern[i]), Atoms(pattern[i + 1..]));
        atoms := atoms + [AtomOf(pattern[i])];
      }
    }
    AtomsStep(pattern, if escaped then |pattern| - 1 else |pattern|);
    if escaped {
      atoms := atoms + [Exactly('\\')];
    }
  }

  // ----- exact names -----

  lemma {:induction false} ExactMatches(fold: char -> char, p: string, name: string)
    requires !HasWildcard(p)
    ensures Matches(fold, Atoms(p), name) <==> SameFolded(fold, name, Strip(p))
    decreases |p|
  {
    if p != "" {
      var rest := if p[0] == '\\' then (if |p| > 1 then p[2..] else "") else p[1..];
      var first := Strip(p)[0];
      assert Strip(p) == [first] + Strip(rest) && Atoms(p) == [Exactly(first)] + Atoms(rest);
      assert Atoms(p)[1..] == Atoms(rest);
      if name != "" {
        ExactMatches(fold, rest, name[1..]);
        SameFoldedStep(fold, name, Strip(p));
      }
    }
  }

  lemma SameFoldedStep(fold: char -> char, a: string, b: string)
    requires a != "" && b != ""
    ensures SameFolded(fold, a, b) <==> fold(a[0]) == fold(b[0]) && SameFolded(fold, a[1..], b[1..])
  {
    if fold(a[0]) == fold(b[0]) && SameFolded(fold, a[1..], b[1..]) {
      forall i | 0 <= i < |a| ensures fold(a[i]) == fold(b[i]) {
        assert i > 0 ==> a[i] == a[1..][i - 1] && b[i] == b[1..][i - 1];
      }
    } else if SameFolded(fold, a, b) {
      forall i | 0 <= i < |a| - 1 ensures fold(a[1..][i]) == fold(b[1..][i]) {
        assert a[1..][i] == a[i + 1] && b[1..][i] == b[i + 1];
      }
    }
  }

  /** A name of the pattern's own length that it matches, with the first wildcard's character replaced. */
  function Variant(p: string, c: char): string {
    if p == "" then ""
    else if p[0] == '\\' then if |p| > 1 then [p[1]] + Variant(p[2..], c) else "\\"
    else if IsWildcard(p[0]) then [c] + Strip(p[1..])
    else [p[0]] + Variant(p[1..], c)
  }

  /** Each wildcard matches the one character it is written with, among others. */
  lemma {:induction false} StripMatches(fold: char -> char, p: string)
    ensures Matches(fold, Atoms(p), Strip(p))
    decreases |p|
  {
    if p != "" {
      var rest := if p[0] == '\\' then (if |p| > 1 then p[2..] else "") else p[1..];
      StripMatches(fold, rest);
      assert Strip(p)[1..] == Strip(rest) && Atoms(p)[1..] == Atoms(rest);
      if p[0] != '\\' && AtomOf(p[0]).AnyRun? {
        assert Matches(fold, Atoms(p), Strip(rest)) by { assert Matches(fold, Atoms(p)[1..], Strip(rest)); }
      }
    }
  }

  lemma {:induction false} VariantMatches(fold: char -> char, p: string, c: char)
    requires HasWildcard(p) && c != '\n'
    requires fold(c) != fold('%') && fold(c) != fold('_') && fold(c) != fold('*')
    ensures Matches(fold, Atoms(p), Variant(p, c)) && !SameFolded(fold, Variant(p, c), Strip(p))
    decreases |p|
  {
    var name := Variant(p, c);
    if p[0] != '\\' && IsWildcard(p[0]) {
      StripMatches(fold, p[1..]);
      assert name[1..] == Strip(p[1..]) && Atoms(p)[1..] == Atoms(p[1..]);
      if AtomOf(p[0]).AnyRun? {
        assert Matches(fold, Atoms(p), name[1..]) by { assert Matches(fold, Atoms(p)[1..], name[1..]); }
      }
      assert name[0] == c && Strip(p)[0] == p[0];
    } else {
      var rest := if p[0] == '\\' then p[2..] else p[1..];
      VariantMatches(fold, rest, c);
      assert name[1..] == Variant(rest, c) && Strip(p)[1..] == Strip(rest) && Atoms(p)[1..] == Atoms(rest);
      SameFoldedStep(fold, name, Strip(p));
    }
  }

  /** Looking up the stripped name agrees with matching every name, up to case, exactly when the pattern has no
      unescaped wildcard; a trailing backslash is an ordinary character. */
  lemma ExactNameRule(fold: char -> char, p: string, letter: char)
    requires letter != '\n' && fold(letter) != fold('%') && fold(letter) != fold('_') && fold(letter) != fold('*')
    ensures !HasWildcard(p) <==>
      forall name: string :: Matches(fold, Atoms(p), name) <==> SameFolded(fold, name, Strip(p))
  {
    hide Matches, SameFolded, Atoms, Strip, HasWildcard;
    if HasWildcard(p) {
      VariantMatches(fold, p, letter);
    } else {
      forall name: string ensures Matches(fold, Atoms(p), name) <==> SameFolded(fold, name, Strip(p)) {
        ExactMatches(fold, p, name);
      }
    }
  }

  // ----- the candidates of one level -----

  function Pattern(fold: char -> char, p: string): string -> bool { name => Matches(fold, Atoms(p), name) }

  /** `resolve_schema_candidates`: every schema, none, the one named, or those that match, in the order `leq` sorts
      by. */
  function SchemaCandidates(fold: char -> char, leq: (string, string) -> bool, listed: seq<string>,
                            schema: Option<string>): seq<string> {
    match schema
    case None => StableSort(leq, listed)
    case Some(p) =>
      if p == "" then []
      else if HasWildcard(p) then StableSort(leq, Filter(Pattern(fold, p), listed))
      else [Strip(p)]
  }

  /** A name without wildcards gives what listing and matching would: the listed names that the candidate is up to case,
      and no others. */
  lemma CandidateAgreesWithListing(fold: char -> char, leq: (string, string) -> bool, listed: seq<string>, p: string,
                                   name: string)
    requires p != "" && !HasWildcard(p)
    ensures SchemaCandidates(fold, leq, listed, Some(p)) == [Strip(p)]
    ensures name in Filter(Pattern(fold, p), listed) <==> name in listed && SameFolded(fold, name, Strip(p))
  {
    FilterKeeps(Pattern(fold, p), listed);
    ExactMatches(fold, p, name);
  }
}
