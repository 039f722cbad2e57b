/** SQL LIKE (ISO/IEC 9075-2, section 8.5) with the default escape character, and when it is substring containment. */
module LikePatterns {
  import opened Wrappers

  /** The general matcher. A backslash makes the next character literal; at the very end it stands for itself. */
  predicate Matches(pattern: string, s: string)
    decreases |pattern| + |s|
  {
    if pattern == "" then s == ""
    else if pattern[0] == '%' then Matches(pattern[1..], s) || (s != "" && Matches(pattern, s[1..]))
    else if pattern[0] == '_' then s != "" && Matches(pattern[1..], s[1..])
    else if pattern[0] == '\\' && |pattern| > 1 then s != "" && s[0] == pattern[1] && Matches(pattern[2..], s[1..])
    else s != "" && s[0] == pattern[0] && Matches(pattern[1..], s[1..])
  }

  predicate OccursAt(s: string, needle: string, i: nat) {
    i + |needle| <= |s| && s[i..i + |needle|] == needle
  }

  predicate Contains(s: string, needle: string) { exists i: nat | i <= |s| :: OccursAt(s, needle, i) }

  /** The recognizer: a needle between two percent signs, with no wildcard in it. */
  function NeedleOf(pattern: string): (needle: Option<string>)
    ensures needle.Some? ==> pattern == "%" + needle.value + "%"
    ensures needle.Some? <==> exists n: string :: pattern == "%" + n + "%" && '%' !in n && '_' !in n
  {
    if |pattern| >= 2 && pattern[0] == '%' && pattern[|pattern| - 1] == '%' then
      var needle := pattern[1..|pattern| - 1];
      assert pattern == "%" + needle + "%";
      assert forall n: string | pattern == "%" + n + "%" :: n == pattern[1..|pattern| - 1];
      if '%' in needle || '_' in needle then None else Some(needle)
    else
      assert forall n: string :: ("%" + n + "%")[0] == '%' && ("%" + n + "%")[|n| + 1] == '%';
      None
  }

  predicate Literal(needle: string) { '%' !in needle && '_' !in needle && '\\' !in needle }

  /** A literal followed by a percent sign matches exactly the strings it starts. */
  lemma {:induction false} LiteralPrefix(needle: string, s: string)
    requires Literal(needle)
    ensures Matches(needle + "%", s) <==> needle <= s
    decreases |needle|
  {
    if needle == "" {
      assert needle + "%" == "%";
      PercentMatches(s);
    } else {
      var pattern := needle + "%";
      assert pattern[1..] == needle[1..] + "%";
      if s != "" {
        LiteralPrefix(needle[1..], s[1..]);
        assert needle <= s <==> needle[0] == s[0] && needle[1..] <= s[1..];
      }
    }
  }

  lemma {:induction false} PercentMatches(s: string)
    ensures Matches("%", s)
  {
    if s != "" {
      PercentMatches(s[1..]);
    }
  }

  /** `%needle%` tries the rest of the pattern at every position. */
  lemma {:induction false} LeadingPercent(rest: string, s: string)
    ensures Matches("%" + rest, s) <==> exists i: nat | i <= |s| :: Matches(rest, s[i..])
    decreases |s|
  {
    var pattern := "%" + rest;
    assert pattern[1..] == rest && s[0..] == s;
    if s != "" {
      LeadingPercent(rest, s[1..]);
      forall i: nat | i <= |s[1..]| ensures s[1..][i..] == s[i + 1..] {
      }
      if i: nat :| i <= |s| && Matches(rest, s[i..]) {
        if i > 0 {
          assert Matches(rest, s[1..][i - 1..]);
        }
      }
    } else {
      assert forall i: nat | i <= 0 :: s[i..] == s;
    }
  }

  lemma LiteralLike(needle: string, s: string)
    requires Literal(needle)
    ensures Matches("%" + needle + "%", s) <==> Contains(s, needle)
  {
    hide Matches;
    assert "%" + needle + "%" == "%" + (needle + "%");
    LeadingPercent(needle + "%", s);
    forall i: nat | i <= |s|
      ensures Matches(needle + "%", s[i..]) <==> OccursAt(s, needle, i)
    {
      LiteralPrefix(needle, s[i..]);
      if i + |needle| <= |s| {
        assert s[i..][..|needle|] == s[i..i + |needle|];
      }
    }
  }

  // ----- needles with a backslash -----

  /** What a needle without wildcards stands for once its escapes are read; the last one may escape the final percent.
      */
  function Unescaped(needle: string): string {
    if needle == "" then ""
    else if needle[0] == '\\' then
      if |needle| == 1 then "%" else [needle[1]] + Unescaped(needle[2..])
    else [needle[0]] + Unescaped(needle[1..])
  }

  lemma {:induction false} UnescapedMatches(needle: string)
    requires '%' !in needle && '_' !in needle
    ensures Matches(needle + "%", Unescaped(needle))
    decreases |needle|
  {
    var pattern, s := needle + "%", Unescaped(needle);
    if needle == "" {
      PercentMatches(s);
    } else if needle[0] == '\\' {
      if |needle| == 1 {
        assert pattern == "\\%" && pattern[2..] == "";
      } else {
        UnescapedMatches(needle[2..]);
        assert pattern[2..] == needle[2..] + "%" && s[1..] == Unescaped(needle[2..]);
      }
    } else {
      UnescapedMatches(needle[1..]);
      assert pattern[1..] == needle[1..] + "%" && s[1..] == Unescaped(needle[1..]);
    }
  }

  lemma {:induction false} UnescapedShrinks(needle: string)
    ensures |Unescaped(needle)| <= |needle|
    ensures '\\' in needle && '%' !in needle ==> Unescaped(needle) != needle
  {
    if needle != "" {
      if needle[0] == '\\' {
        if |needle| > 1 {
          UnescapedShrinks(needle[2..]);
        }
      } else {
        UnescapedShrinks(needle[1..]);
        assert needle == [needle[0]] + needle[1..];
      }
    }
  }

  /** LIKE is containment for every string exactly when the needle has no backslash. */
  lemma LikeIsContains(needle: string)
    requires '%' !in needle && '_' !in needle
    ensures (forall s: string :: Matches("%" + needle + "%", s) <==> Contains(s, needle)) <==> '\\' !in needle
  {
    hide Matches;
    if '\\' !in needle {
      forall s: string ensures Matches("%" + needle + "%", s) <==> Contains(s, needle) {
        LiteralLike(needle, s);
      }
    } else {
      var s := Unescaped(needle);
      UnescapedMatches(needle);
      UnescapedShrinks(needle);
      assert "%" + needle + "%" == "%" + (needle + "%") && s[0..] == s;
      LeadingPercent(needle + "%", s);
      assert Matches("%" + needle + "%", s);
      TooShort(s, needle);
    }
  }

  lemma TooShort(s: string, needle: string)
    requires |s| <= |needle| && s != needle
    ensures !Contains(s, needle)
  {
    forall i: nat | i <= |s| ensures !OccursAt(s, needle, i) {
      assert i == 0 ==> s[0..|s|] == s;
    }
  }
}
