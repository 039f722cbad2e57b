/** Printing a syntax tree without adding parentheses, and reading it back by precedence: which trees survive. */
module Printing {
  import opened Wrappers
  import opened Words

  /** A tree by its shape: a form has words of its own before, between and after its parts; an operator has a level, and
      the higher it is the tighter it binds. */
  datatype Syntax =
    | Form(word: Word, parts: seq<Syntax>)
    | Infix(word: Word, level: nat, left: Syntax, right: Syntax)
    | Prefix(word: Word, level: nat, operand: Syntax)
    | Postfix(word: Word, level: nat, operand: Syntax, parts: seq<Syntax>)

  datatype Token =
    | Begin(word: Word)
    | Separator
    | End
    | InfixOp(word: Word, level: nat)
    | PrefixOp(word: Word, level: nat)
    | PostfixOp(word: Word, level: nat)

  function Print(e: Syntax): seq<Token>
    decreases e, 1
  {
    match e
    case Form(word, parts) => [Begin(word)] + PrintParts(parts)
    case Infix(word, level, left, right) => Print(left) + ([InfixOp(word, level)] + Print(right))
    case Prefix(word, level, operand) => [PrefixOp(word, level)] + Print(operand)
    case Postfix(word, level, operand, parts) => Print(operand) + ([PostfixOp(word, level)] + PrintParts(parts))
  }

  function PrintParts(parts: seq<Syntax>): seq<Token>
    decreases parts, 0
  {
    if parts == [] then [End] else Print(parts[0]) + ([Separator] + PrintParts(parts[1..]))
  }

  // ----- the reader: an operand, and then operators for as long as they bind tighter than the one before it -----

  /** The level of the operator that continues an operand, or zero when none does. */
  function NextLevel(ts: seq<Token>): nat {
    if ts != [] && (ts[0].InfixOp? || ts[0].PostfixOp?) then ts[0].level else 0
  }

  function ReadFrom(ts: seq<Token>, level: nat): (r: Option<(Syntax, seq<Token>)>)
    ensures r.Some? ==> |r.value.1| < |ts|
    decreases |ts|, 2
  {
    match ReadOperand(ts)
    case Some((e, rest)) => ReadOn(e, rest, level)
    case None => None
  }

  function ReadOperand(ts: seq<Token>): (r: Option<(Syntax, seq<Token>)>)
    ensures r.Some? ==> |r.value.1| < |ts|
    decreases |ts|, 1
  {
    if ts == [] then None
    else
      match ts[0]
      case Begin(word) => (
        match ReadParts(ts[1..]) case Some((parts, rest)) => Some((Form(word, parts), rest)) case None => None)
      case PrefixOp(word, level) => (
        match ReadFrom(ts[1..], level) case Some((e, rest)) => Some((Prefix(word, level, e), rest)) case None => None)
      case _ => None
  }

  function ReadOn(left: Syntax, ts: seq<Token>, level: nat): (r: Option<(Syntax, seq<Token>)>)
    ensures r.Some? ==> |r.value.1| <= |ts|
    decreases |ts|, 0
  {
    if NextLevel(ts) <= level then Some((left, ts))
    else
      match ts[0]
      case InfixOp(word, own) => (
        match ReadFrom(ts[1..], own)
        case Some((right, rest)) => ReadOn(Infix(word, own, left, right), rest, level)
        case None => None)
      case PostfixOp(word, own) => (
        match ReadParts(ts[1..])
        case Some((parts, rest)) => ReadOn(Postfix(word, own, left, parts), rest, level)
        case None => None)
  }

  function ReadParts(ts: seq<Token>): (r: Option<(seq<Syntax>, seq<Token>)>)
    ensures r.Some? ==> |r.value.1| < |ts|
    decreases |ts|, 3
  {
    if ts == [] then None
    else if ts[0].End? then Some(([], ts[1..]))
    else
      match ReadFrom(ts, 0)
      case None => None
      case Some((first, rest)) =>
        if rest == [] || !rest[0].Separator? then None
        else
          match ReadParts(rest[1..])
          case Some((others, behind)) => Some(([first] + others, behind))
          case None => None
  }

  function Read(ts: seq<Token>): Option<Syntax> {
    match ReadFrom(ts, 0)
    case Some((e, rest)) => if rest == [] then Some(e) else None
    case None => None
  }

  // ----- which trees fit without parentheses -----

  /** An operator of this level that follows the tree is not drawn into its right edge. */
  predicate Closes(e: Syntax, level: nat) {
    match e
    case Form(_, _) => true
    case Infix(_, own, _, right) => level <= own && Closes(right, level)
    case Prefix(_, own, operand) => level <= own && Closes(operand, level)
    case Postfix(_, _, _, _) => true
  }

  /** The tree is one that can follow an operator of this level: each operand binds at least as tightly as its place
      requires. */
  predicate Fits(e: Syntax, level: nat)
    decreases e, 1
  {
    match e
    case Form(_, parts) => AllFit(parts)
    case Infix(_, own, left, right) => level < own && Fits(left, level) && Closes(left, own) && Fits(right, own)
    case Prefix(_, own, operand) => Fits(operand, own)
    case Postfix(_, own, operand, parts) =>
      level < own && Fits(operand, level) && Closes(operand, own) && AllFit(parts)
  }

  predicate AllFit(parts: seq<Syntax>)
    decreases parts, 0
  {
    parts == [] || (Fits(parts[0], 0) && AllFit(parts[1..]))
  }

  lemma {:induction false} ClosesBelow(e: Syntax, level: nat, lower: nat)
    requires Closes(e, level) && lower <= level
    ensures Closes(e, lower)
  {
    match e {
      case Form(_, _) =>
      case Infix(_, _, _, right) => ClosesBelow(right, level, lower);
      case Prefix(_, _, operand) => ClosesBelow(operand, level, lower);
      case Postfix(_, _, _, _) =>
    }
  }

  lemma {:induction false} ClosesZero(e: Syntax)
    ensures Closes(e, 0)
  {
    match e {
      case Form(_, _) =>
      case Infix(_, _, _, right) => ClosesZero(right);
      case Prefix(_, _, operand) => ClosesZero(operand);
      case Postfix(_, _, _, _) =>
    }
  }

  lemma {:induction false} FitsBelow(e: Syntax, level: nat, lower: nat)
    requires Fits(e, level) && lower <= level
    ensures Fits(e, lower)
  {
    match e {
      case Form(_, _) =>
      case Infix(_, _, left, _) => FitsBelow(left, level, lower);
      case Prefix(_, _, _) =>
      case Postfix(_, _, operand, _) => FitsBelow(operand, level, lower);
    }
  }

  // ----- a tree that fits reads back as itself -----

  lemma InfixPrinted(word: Word, own: nat, left: Syntax, right: Syntax, rest: seq<Token>)
    ensures Print(Infix(word, own, left, right)) + rest
      == Print(left) + ([InfixOp(word, own)] + (Print(right) + rest))
  {
  }

  lemma PostfixPrinted(word: Word, own: nat, operand: Syntax, parts: seq<Syntax>, rest: seq<Token>)
    ensures Print(Postfix(word, own, operand, parts)) + rest
      == Print(operand) + ([PostfixOp(word, own)] + (PrintParts(parts) + rest))
  {
  }

  lemma {:induction false} PrintedReads(e: Syntax, rest: seq<Token>, level: nat)
    requires Fits(e, level) && Closes(e, NextLevel(rest))
    ensures ReadFrom(Print(e) + rest, level) == ReadOn(e, rest, level)
    decreases e, 1
  {
    match e {
      case Form(word, parts) =>
        FormReads(word, parts, rest);
      case Infix(word, own, left, right) =>
        var after := [InfixOp(word, own)] + (Print(right) + rest);
        InfixPrinted(word, own, left, right, rest);
        PrintedReads(left, after, level);
        assert after[1..] == Print(right) + rest;
        PrintedReads(right, rest, own);
      case Prefix(word, own, operand) =>
        assert (Print(e) + rest)[1..] == Print(operand) + rest;
        PrintedReads(operand, rest, own);
      case Postfix(word, own, operand, parts) =>
        var after := [PostfixOp(word, own)] + (PrintParts(parts) + rest);
        PostfixPrinted(word, own, operand, parts, rest);
        PrintedReads(operand, after, level);
        assert after[1..] == PrintParts(parts) + rest;
        PartsRead(parts, rest);
    }
  }

  lemma {:induction false} FormReads(word: Word, parts: seq<Syntax>, rest: seq<Token>)
    requires AllFit(parts)
    ensures ReadOperand(Print(Form(word, parts)) + rest) == Some((Form(word, parts), rest))
    decreases parts, 3
  {
    assert (Print(Form(word, parts)) + rest)[1..] == PrintParts(parts) + rest;
    PartsRead(parts, rest);
  }

  lemma {:induction false} PartsRead(parts: seq<Syntax>, rest: seq<Token>)
    requires AllFit(parts)
    ensures ReadParts(PrintParts(parts) + rest) == Some((parts, rest))
    decreases parts, 2
  {
    var ts := PrintParts(parts) + rest;
    if parts == [] {
      assert ts[1..] == rest;
    } else {
      var after := [Separator] + (PrintParts(parts[1..]) + rest);
      assert ts == Print(parts[0]) + after;
      PrintedStarts(parts[0]);
      assert after[1..] == PrintParts(parts[1..]) + rest;
      ClosesZero(parts[0]);
      PrintedReads(parts[0], after, 0);
      PartsRead(parts[1..], rest);
      assert parts == [parts[0]] + parts[1..];
    }
  }

  lemma {:induction false} PrintedStarts(e: Syntax)
    ensures Print(e) != [] && !Print(e)[0].End?
  {
    match e {
      case Form(_, _) =>
      case Infix(_, _, left, _) => PrintedStarts(left);
      case Prefix(_, _, _) =>
      case Postfix(_, _, operand, _) => PrintedStarts(operand);
    }
  }

  // ----- and nothing else is ever read -----

  /** What the reader has made of the tokens: a tree that fits, printed as they are, with what follows left over. */
  ghost predicate ReadWell(e: Syntax, rest: seq<Token>, ts: seq<Token>, level: nat) {
    Fits(e, level) && Closes(e, NextLevel(rest)) && NextLevel(rest) <= level && ts == Print(e) + rest
  }

  lemma {:induction false} ReadFits(ts: seq<Token>, level: nat)
    ensures var r := ReadFrom(ts, level); r.Some? ==> ReadWell(r.value.0, r.value.1, ts, level)
    decreases |ts|, 2
  {
    if ReadOperand(ts).Some? {
      var (e, rest) := ReadOperand(ts).value;
      OperandFits(ts, level);
      ReadOnFits(e, rest, level);
    }
  }

  lemma {:induction false} OperandFits(ts: seq<Token>, level: nat)
    ensures var r := ReadOperand(ts); r.Some? ==>
      Fits(r.value.0, level) && Closes(r.value.0, NextLevel(r.value.1)) && ts == Print(r.value.0) + r.value.1
    decreases |ts|, 1
  {
    if ReadOperand(ts).Some? {
      assert ts == [ts[0]] + ts[1..];
      match ts[0] {
        case Begin(_) => PartsFit(ts[1..]);
        case PrefixOp(_, own) => ReadFits(ts[1..], own);
        case _ =>
      }
    }
  }

  lemma {:induction false} ReadOnFits(left: Syntax, ts: seq<Token>, level: nat)
    requires Fits(left, level) && Closes(left, NextLevel(ts))
    ensures var r := ReadOn(left, ts, level); r.Some? ==> ReadWell(r.value.0, r.value.1, Print(left) + ts, level)
    decreases |ts|, 0
  {
    hide Print, PrintParts, ReadFrom, ReadParts;
    if NextLevel(ts) > level {
      match ts[0] {
        case InfixOp(word, own) =>
          if ReadFrom(ts[1..], own).Some? {
            var (right, rest) := ReadFrom(ts[1..], own).value;
            ReadFits(ts[1..], own);
            InfixPrinted(word, own, left, right, rest);
            assert ts == [ts[0]] + ts[1..];
            ReadOnFits(Infix(word, own, left, right), rest, level);
          }
        case PostfixOp(word, own) =>
          if ReadParts(ts[1..]).Some? {
            var (parts, rest) := ReadParts(ts[1..]).value;
            PartsFit(ts[1..]);
            PostfixPrinted(word, own, left, parts, rest);
            assert ts == [ts[0]] + ts[1..];
            ReadOnFits(Postfix(word, own, left, parts), rest, level);
          }
      }
    }
  }

  lemma PartsPrinted(first: Syntax, others: seq<Syntax>, rest: seq<Token>)
    ensures PrintParts([first] + others) + rest == Print(first) + ([Separator] + (PrintParts(others) + rest))
    ensures AllFit([first] + others) <==> Fits(first, 0) && AllFit(others)
  {
    hide Print, Fits;
    assert ([first] + others)[1..] == others;
  }

  lemma {:induction false} PartsFit(ts: seq<Token>)
    ensures var r := ReadParts(ts); r.Some? ==> AllFit(r.value.0) && ts == PrintParts(r.value.0) + r.value.1
    decreases |ts|, 3
  {
    if ReadParts(ts).Some? {
      hide Print, Fits, ReadFrom;
      if ts[0].End? {
        assert ts == [ts[0]] + ts[1..];
      } else {
        var (first, rest) := ReadFrom(ts, 0).value;
        ReadFits(ts, 0);
        PartsFit(rest[1..]);
        var (others, behind) := ReadParts(rest[1..]).value;
        PartsPrinted(first, others, behind);
        assert rest == [Separator] + rest[1..];
      }
    }
  }

  // ----- the two together -----

  /** A tree that is printed without parentheses reads back as itself exactly when each of its operands binds at least
      as tightly as its place requires. */
  lemma ReadsBack(e: Syntax)
    ensures Read(Print(e)) == Some(e) <==> Fits(e, 0)
  {
    assert Print(e) + [] == Print(e);
    ReadFits(Print(e), 0);
    if Fits(e, 0) {
      ClosesZero(e);
      PrintedReads(e, [], 0);
    }
  }

  /** Whatever is read fits, and prints as the very tokens it was read from. */
  lemma ReadPrints(ts: seq<Token>)
    ensures Read(ts).Some? ==> Fits(Read(ts).value, 0) && Print(Read(ts).value) == ts
  {
    ReadFits(ts, 0);
  }
}
