/** Replacement templates: a dollar or a backslash refers to a group by number, a dollar also with the number in braces,
    and everything else stands for itself. */
module Templates {
  import opened Wrappers
  import opened Decimals
  import opened Rewriter

  /** The text of a group that took part in the match, and nothing for any other number. */
  function GroupText(groups: seq<Option<string>>, i: nat): string {
    if i < |groups| && groups[i].Some? then groups[i].value else ""
  }

  /** How many digits a text begins with. */
  function DigitCount(s: string): (n: nat)
    ensures n <= |s| && AllDigits(s[..n]) && (n < |s| ==> !IsDigit(s[n]))
  {
    if s == "" || !IsDigit(s[0]) then 0 else 1 + DigitCount(s[1..])
  }

  datatype Reference = NoReference | Reference(group: nat, length: nat)

  /** The reference a template begins with, and how long it is. */
  function ReferenceAt(t: string): (r: Reference)
    requires t != ""
    ensures r.Reference? ==> 0 < r.length <= |t|
  {
    var bare := DigitCount(t[1..]);
    if (t[0] == '$' || t[0] == '\\') && bare > 0 then Reference(DecimalValue(t[1..][..bare]), 1 + bare)
    else if t[0] == '$' && |t| > 1 && t[1] == '{' then
      var braced := DigitCount(t[2..]);
      if braced > 0 && 2 + braced < |t| && t[2 + braced] == '}'
      then Reference(DecimalValue(t[2..][..braced]), 3 + braced) else NoReference
    else NoReference
  }

  function Expand(t: string, groups: seq<Option<string>>): string
    decreases |t|
  {
    if t == "" then ""
    else
      match ReferenceAt(t)
      case Reference(group, length) => GroupText(groups, group) + Expand(t[length..], groups)
      case NoReference => [t[0]] + Expand(t[1..], groups)
  }

  lemma {:induction false} PlainExpands(t: string, groups: seq<Option<string>>)
    requires '$' !in t && '\\' !in t
    ensures Expand(t, groups) == t
  {
    if t != "" {
      hide DigitCount;
      PlainExpands(t[1..], groups);
      assert ReferenceAt(t).NoReference?;
    }
  }

  lemma DigitsCounted(digits: string, rest: string)
    requires AllDigits(digits) && (rest != "" ==> !IsDigit(rest[0]))
    ensures DigitCount(digits + rest) == |digits| && (digits + rest)[..|digits|] == digits
  {
    hide DigitCount;
    var all, n := digits + rest, DigitCount(digits + rest);
    assert forall i | 0 <= i < |digits| :: all[i] == digits[i];
    assert rest != "" ==> all[|digits|] == rest[0];
    assert forall i | 0 <= i < n :: IsDigit(all[..n][i]) && all[..n][i] == all[i];
  }

  lemma {:induction false} DigitsPlain(digits: string)
    requires AllDigits(digits)
    ensures '$' !in digits && '\\' !in digits
  {
  }

  /** A backslash before a number in braces, which refers to no group. */
  predicate BracedBackslash(replacement: string) { |replacement| >= 2 && replacement[..2] == "\\{" }

  lemma BareExpands(open: char, digits: string, groups: seq<Option<string>>)
    requires (open == '$' || open == '\\') && digits != "" && AllDigits(digits)
    ensures Expand([open] + digits, groups) == GroupText(groups, DecimalValue(digits))
  {
    hide DigitCount;
    var t := [open] + digits;
    assert t[1..] == digits + "";
    DigitsCounted(digits, "");
    assert t[1 + |digits|..] == "";
  }

  lemma BracedExpands(digits: string, groups: seq<Option<string>>)
    requires digits != "" && AllDigits(digits)
    ensures Expand("${" + digits + "}", groups) == GroupText(groups, DecimalValue(digits))
  {
    hide DigitCount;
    var t := "${" + digits + "}";
    assert t[2..] == digits + "}" && t[1..][0] == '{';
    DigitsCounted(digits, "}");
    DigitsCounted("", t[1..]);
    assert "" + t[1..] == t[1..];
    assert t[3 + |digits|..] == "";
  }

  lemma BracedBackslashExpands(digits: string, groups: seq<Option<string>>)
    requires AllDigits(digits)
    ensures Expand("\\{" + digits + "}", groups) == "\\{" + digits + "}"
  {
    hide DigitCount;
    var t := "\\{" + digits + "}";
    DigitsPlain(digits);
    PlainExpands(t[1..], groups);
    DigitsCounted("", t[1..]);
    assert "" + t[1..] == t[1..];
  }

  /** Of the spellings that are recognized, one does not refer to the group, and stands for itself instead. */
  lemma SpellingExpands(replacement: string, groups: seq<Option<string>>)
    requires CaptureIndex(replacement).Some?
    ensures Expand(replacement, groups) ==
      if BracedBackslash(replacement) then replacement else GroupText(groups, CaptureIndex(replacement).value)
  {
    hide Expand, CaptureIndex;
    var open, digits := ReadSpelling(replacement);
    if open == "\\{" {
      BracedBackslashExpands(digits, groups);
    } else if open == "${" {
      BracedExpands(digits, groups);
    } else {
      assert IsDigit(digits[0]) && replacement[1] == digits[0];
      BareExpands(open[0], digits, groups);
    }
  }

  /** A recognized replacement stands for its group in every match, exactly when it is not spelled that way. */
  lemma ExpandsToGroup(replacement: string)
    requires CaptureIndex(replacement).Some?
    ensures !BracedBackslash(replacement) <==> forall groups: seq<Option<string>> ::
        Expand(replacement, groups) == GroupText(groups, CaptureIndex(replacement).value)
  {
    hide Expand, CaptureIndex;
    forall groups: seq<Option<string>>
      ensures Expand(replacement, groups) ==
        if BracedBackslash(replacement) then replacement else GroupText(groups, CaptureIndex(replacement).value)
    {
      SpellingExpands(replacement, groups);
    }
    if BracedBackslash(replacement) {
      assert Expand(replacement, []) == replacement;
    }
  }

  /** For instance, a backslash and the number one in braces is recognized and expands to itself. */
  lemma BracedBackslashOne(groups: seq<Option<string>>)
    ensures CaptureIndex("\\{1}") == Some(1) && Expand("\\{1}", groups) == "\\{1}"
  {
    hide Expand;
    assert "1"[..0] == "";
    SpellingRead("\\{1}", "\\{", "1", 1);
    BracedBackslashExpands("1", groups);
    assert "\\{" + "1" + "}" == "\\{1}";
  }
}
