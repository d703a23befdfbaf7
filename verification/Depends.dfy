/** The `depends` expressions of workflow tasks: a recursive-descent parser that collects task names. */
module Depends {
  import opened Common
  import opened PyText
  import opened Sorting
  import opened Tokens

  /** The operators "||", "&&", "!", "(" and ")"; any other token is a word. */
  datatype Token = OrOp | AndOp | NotOp | Open | Close | Word(text: string)

  function TokenOf(text: string): Token {
    if text == "||" then OrOp
    else if text == "&&" then AndOp
    else if text == "!" then NotOp
    else if text == "(" then Open
    else if text == ")" then Close
    else Word(text)
  }

  function Spelling(t: Token): string {
    match t
    case OrOp => "||"
    case AndOp => "&&"
    case NotOp => "!"
    case Open => "("
    case Close => ")"
    case Word(text) => text
  }

  function Classified(texts: seq<string>): (ts: seq<Token>)
    ensures |ts| == |texts| && forall i :: 0 <= i < |ts| ==> ts[i] == TokenOf(texts[i])
  {
    seq(|texts|, i requires 0 <= i < |texts| => TokenOf(texts[i]))
  }

  function Spellings(ts: seq<Token>): (texts: seq<string>)
    ensures |texts| == |ts| && forall i :: 0 <= i < |ts| ==> texts[i] == Spelling(ts[i])
  {
    seq(|ts|, i requires 0 <= i < |ts| => Spelling(ts[i]))
  }

  /** The name before the dot in a term such as "build.Succeeded". */
  function Prefix(text: string): string {
    text[..Find(text, '.')]
  }

  /** The name is what stands before the first dot. */
  lemma PrefixMeaning(a: string, b: string)
    requires '.' !in a
    ensures Prefix(a) == a && Prefix(a + ['.'] + b) == a
  {
    FindFirst(a, '.', b);
    assert (a + ['.'] + b)[..|a|] == a;
  }

  // ----- expression trees and their text

  datatype Expr =
    | Term(text: string)
    | Not(arg: Expr)
    | Parens(arg: Expr)
    | And(left: Expr, right: Expr)
    | Or(left: Expr, right: Expr)

  /** Levels of binding: 0 for or, 1 for and, 2 for operands. */
  function LevelOf(e: Expr): nat {
    if e.Or? then 0 else if e.And? then 1 else 2
  }

  function Wrap(level: nat, e: Expr, tokens: seq<Token>): seq<Token> {
    if LevelOf(e) < level then [Open] + tokens + [Close] else tokens
  }

  /** Printing where the context binds at the given level, with parentheses only where they are needed. */
  function Print(level: nat, e: Expr): seq<Token>
    decreases e
  {
    match e
    case Term(t) => [Word(t)]
    case Not(a) => [NotOp] + Print(2, a)
    case Parens(a) => [Open] + Print(0, a) + [Close]
    case And(l, r) => Wrap(level, e, Print(1, l) + [AndOp] + Print(1, r))
    case Or(l, r) => Wrap(level, e, Print(0, l) + [OrOp] + Print(0, r))
  }

  function Leaves(e: Expr): seq<string> {
    match e
    case Term(t) => [Prefix(t)]
    case Not(a) => Leaves(a)
    case Parens(a) => Leaves(a)
    case And(l, r) => Leaves(l) + Leaves(r)
    case Or(l, r) => Leaves(l) + Leaves(r)
  }

  // ----- the parser as a function of the remaining tokens

  /** Remaining tokens and the prefixes collected, or a failure. */
  datatype Parse = Fail | Rest(tokens: seq<Token>, prefixes: seq<string>)

  /** level 2 parses an operand, level 1 a conjunction, level 0 a disjunction. */
  function Operand(ts: seq<Token>): (r: Parse)
    ensures r.Rest? ==> |r.tokens| < |ts|
    decreases |ts|, 0
  {
    if ts == [] then Fail
    else if ts[0] == Open then
      var inner := Disjunction(ts[1..]);
      if inner.Fail? || inner.tokens == [] || inner.tokens[0] != Close then Fail
      else Rest(inner.tokens[1..], inner.prefixes)
    else if ts[0] == NotOp then Operand(ts[1..])
    else if !ts[0].Word? then Fail
    else Rest(ts[1..], [Prefix(ts[0].text)])
  }

  function Conjunction(ts: seq<Token>): (r: Parse)
    ensures r.Rest? ==> |r.tokens| < |ts|
    decreases |ts|, 1
  {
    var first := Operand(ts);
    if first.Fail? then Fail else MoreAnd(first.tokens, first.prefixes)
  }

  function MoreAnd(ts: seq<Token>, sofar: seq<string>): (r: Parse)
    ensures r.Rest? ==> |r.tokens| <= |ts|
    decreases |ts|, 0
  {
    if ts == [] || ts[0] != AndOp then Rest(ts, sofar)
    else
      var next := Operand(ts[1..]);
      if next.Fail? then Fail else MoreAnd(next.tokens, sofar + next.prefixes)
  }

  function Disjunction(ts: seq<Token>): (r: Parse)
    ensures r.Rest? ==> |r.tokens| < |ts|
    decreases |ts|, 2
  {
    var first := Conjunction(ts);
    if first.Fail? then Fail else MoreOr(first.tokens, first.prefixes)
  }

  function MoreOr(ts: seq<Token>, sofar: seq<string>): (r: Parse)
    ensures r.Rest? ==> |r.tokens| <= |ts|
    decreases |ts|, 1
  {
    if ts == [] || ts[0] != OrOp then Rest(ts, sofar)
    else
      var next := Conjunction(ts[1..]);
      if next.Fail? then Fail else MoreOr(next.tokens, sofar + next.prefixes)
  }

  // ----- every printed tree is parsed back

  predicate StartsWith(ts: seq<Token>, t: Token) {
    ts != [] && ts[0] == t
  }

  datatype Stage = OperandStage | BracketStage | AndStage | OrStage

  /** The lemmas below call one another on the same tree in an order that depends on its top operator. */
  function Rank(e: Expr, stage: Stage): nat {
    var order := if e.And? then [AndStage, OrStage, BracketStage, OperandStage]
                 else if e.Or? then [OrStage, BracketStage, OperandStage, AndStage]
                 else [OperandStage, AndStage, OrStage, BracketStage];
    if stage == order[0] then 0 else if stage == order[1] then 1 else if stage == order[2] then 2 else 3
  }

  lemma StepOpen(ts: seq<Token>)
    ensures Operand([Open] + ts) ==
            var inner := Disjunction(ts);
            if inner.Fail? || inner.tokens == [] || inner.tokens[0] != Close then Fail
            else Rest(inner.tokens[1..], inner.prefixes)
  {
    assert ([Open] + ts)[1..] == ts;
  }

  lemma StepWord(t: string, ts: seq<Token>)
    ensures Operand([Word(t)] + ts) == Rest(ts, [Prefix(t)])
  {
    assert ([Word(t)] + ts)[1..] == ts;
  }

  lemma StepNot(ts: seq<Token>)
    ensures Operand([NotOp] + ts) == Operand(ts)
  {
    assert ([NotOp] + ts)[1..] == ts;
  }

  lemma StepAnd(ts: seq<Token>, sofar: seq<string>)
    ensures MoreAnd([AndOp] + ts, sofar) ==
            var next := Operand(ts);
            if next.Fail? then Fail else MoreAnd(next.tokens, sofar + next.prefixes)
  {
    assert ([AndOp] + ts)[1..] == ts;
  }

  lemma StepOr(ts: seq<Token>, sofar: seq<string>)
    ensures MoreOr([OrOp] + ts, sofar) ==
            var next := Conjunction(ts);
            if next.Fail? then Fail else MoreOr(next.tokens, sofar + next.prefixes)
  {
    assert ([OrOp] + ts)[1..] == ts;
  }

  lemma Regroup(a: seq<Token>, op: Token, b: seq<Token>, rest: seq<Token>)
    ensures a + [op] + b + rest == a + ([op] + (b + rest))
  {
  }

  lemma {:induction false} ParsesOperand(e: Expr, rest: seq<Token>)
    ensures Operand(Print(2, e) + rest) == Rest(rest, Leaves(e))
    decreases e, Rank(e, OperandStage)
  {
    match e
    case Term(t) =>
      StepWord(t, rest);
    case Not(a) =>
      ParsesOperand(a, rest);
      StepNot(Print(2, a) + rest);
      assert Print(2, e) + rest == [NotOp] + (Print(2, a) + rest);
    case Parens(a) =>
      ParsesBracket(a, rest);
    case And(_, _) =>
      assert Print(2, e) == [Open] + Print(0, e) + [Close];
      ParsesBracket(e, rest);
    case Or(_, _) =>
      assert Print(2, e) == [Open] + Print(0, e) + [Close];
      ParsesBracket(e, rest);
  }

  lemma {:induction false} ParsesBracket(e: Expr, rest: seq<Token>)
    ensures Operand([Open] + Print(0, e) + [Close] + rest) == Rest(rest, Leaves(e))
    decreases e, Rank(e, BracketStage)
  {
    var tail := [Close] + rest;
    assert [Open] + Print(0, e) + [Close] + rest == [Open] + (Print(0, e) + tail);
    ParsesDisjunction(e, tail);
    StepOpen(Print(0, e) + tail);
    assert tail[1..] == rest;
  }

  lemma {:induction false} ParsesConjunction(e: Expr, rest: seq<Token>)
    ensures Conjunction(Print(1, e) + rest) == MoreAnd(rest, Leaves(e))
    decreases e, Rank(e, AndStage)
  {
    if e.And? {
      ParsesConjunction(e.left, [AndOp] + (Print(1, e.right) + rest));
      ContinuesAnd(e.right, rest, Leaves(e.left));
      Regroup(Print(1, e.left), AndOp, Print(1, e.right), rest);
    } else {
      ParsesOperand(e, rest);
      assert Print(1, e) == Print(2, e);
    }
  }

  lemma {:induction false} ContinuesAnd(e: Expr, rest: seq<Token>, sofar: seq<string>)
    ensures MoreAnd([AndOp] + (Print(1, e) + rest), sofar) == MoreAnd(rest, sofar + Leaves(e))
    decreases e, Rank(e, AndStage)
  {
    if e.And? {
      ContinuesAnd(e.left, [AndOp] + (Print(1, e.right) + rest), sofar);
      ContinuesAnd(e.right, rest, sofar + Leaves(e.left));
      Regroup(Print(1, e.left), AndOp, Print(1, e.right), rest);
      assert sofar + Leaves(e.left) + Leaves(e.right) == sofar + Leaves(e);
    } else {
      ParsesOperand(e, rest);
      assert Print(1, e) == Print(2, e);
      StepAnd(Print(2, e) + rest, sofar);
    }
  }

  lemma {:induction false} ParsesDisjunction(e: Expr, rest: seq<Token>)
    requires !StartsWith(rest, AndOp)
    ensures Disjunction(Print(0, e) + rest) == MoreOr(rest, Leaves(e))
    decreases e, Rank(e, OrStage)
  {
    if e.Or? {
      ParsesDisjunction(e.left, [OrOp] + (Print(0, e.right) + rest));
      ContinuesOr(e.right, rest, Leaves(e.left));
      Regroup(Print(0, e.left), OrOp, Print(0, e.right), rest);
    } else {
      ParsesConjunction(e, rest);
      assert Print(0, e) == Print(1, e);
    }
  }

  lemma {:induction false} ContinuesOr(e: Expr, rest: seq<Token>, sofar: seq<string>)
    requires !StartsWith(rest, AndOp)
    ensures MoreOr([OrOp] + (Print(0, e) + rest), sofar) == MoreOr(rest, sofar + Leaves(e))
    decreases e, Rank(e, OrStage)
  {
    if e.Or? {
      ContinuesOr(e.left, [OrOp] + (Print(0, e.right) + rest), sofar);
      ContinuesOr(e.right, rest, sofar + Leaves(e.left));
      Regroup(Print(0, e.left), OrOp, Print(0, e.right), rest);
      assert sofar + Leaves(e.left) + Leaves(e.right) == sofar + Leaves(e);
    } else {
      ParsesConjunction(e, rest);
      assert Print(0, e) == Print(1, e);
      StepOr(Print(1, e) + rest, sofar);
    }
  }

  // ----- everything that is accepted is a printed tree

  lemma {:induction false} OperandIsTree(ts: seq<Token>) returns (e: Expr)
    requires Operand(ts).Rest?
    ensures LevelOf(e) == 2 && ts == Print(2, e) + Operand(ts).tokens && Leaves(e) == Operand(ts).prefixes
    decreases |ts|, 0
  {
    assert ts == [ts[0]] + ts[1..];
    if ts[0] == Open {
      var inner := Disjunction(ts[1..]);
      var a := DisjunctionIsTree(ts[1..]);
      e := Parens(a);
      assert inner.tokens == [Close] + inner.tokens[1..];
      assert ts == [Open] + (Print(0, a) + ([Close] + inner.tokens[1..]));
    } else if ts[0] == NotOp {
      var a := OperandIsTree(ts[1..]);
      e := Not(a);
    } else {
      e := Term(ts[0].text);
    }
  }

  lemma {:induction false} ConjunctionIsTree(ts: seq<Token>) returns (e: Expr)
    requires Conjunction(ts).Rest?
    ensures LevelOf(e) >= 1 && ts == Print(1, e) + Conjunction(ts).tokens && Leaves(e) == Conjunction(ts).prefixes
    decreases |ts|, 1
  {
    var first := OperandIsTree(ts);
    assert Print(1, first) == Print(2, first);
    e := MoreAndIsTree(first, Operand(ts).tokens);
  }

  lemma {:induction false} MoreAndIsTree(head: Expr, ts: seq<Token>) returns (e: Expr)
    requires LevelOf(head) >= 1 && MoreAnd(ts, Leaves(head)).Rest?
    ensures LevelOf(e) >= 1
    ensures Print(1, head) + ts == Print(1, e) + MoreAnd(ts, Leaves(head)).tokens
    ensures Leaves(e) == MoreAnd(ts, Leaves(head)).prefixes
    decreases |ts|, 0
  {
    if !StartsWith(ts, AndOp) {
      e := head;
    } else {
      var next := OperandIsTree(ts[1..]);
      var rest := Operand(ts[1..]).tokens;
      var joined := And(head, next);
      assert ts == [AndOp] + ts[1..];
      StepAnd(ts[1..], Leaves(head));
      e := MoreAndIsTree(joined, rest);
      Regroup(Print(1, head), AndOp, Print(2, next), rest);
      assert Print(1, next) == Print(2, next);
    }
  }

  lemma {:induction false} DisjunctionIsTree(ts: seq<Token>) returns (e: Expr)
    requires Disjunction(ts).Rest?
    ensures ts == Print(0, e) + Disjunction(ts).tokens && Leaves(e) == Disjunction(ts).prefixes
    decreases |ts|, 2
  {
    var first := ConjunctionIsTree(ts);
    assert Print(0, first) == Print(1, first);
    e := MoreOrIsTree(first, Conjunction(ts).tokens);
  }

  lemma {:induction false} MoreOrIsTree(head: Expr, ts: seq<Token>) returns (e: Expr)
    requires MoreOr(ts, Leaves(head)).Rest?
    ensures Print(0, head) + ts == Print(0, e) + MoreOr(ts, Leaves(head)).tokens
    ensures Leaves(e) == MoreOr(ts, Leaves(head)).prefixes
    decreases |ts|, 1
  {
    if !StartsWith(ts, OrOp) {
      e := head;
    } else {
      var next := ConjunctionIsTree(ts[1..]);
      var rest := Conjunction(ts[1..]).tokens;
      var joined := Or(head, next);
      assert ts == [OrOp] + ts[1..];
      StepOr(ts[1..], Leaves(head));
      e := MoreOrIsTree(joined, rest);
      Regroup(Print(0, head), OrOp, Print(1, next), rest);
      assert Print(0, next) == Print(1, next);
    }
  }

  // ----- where the parser stops

  lemma {:induction false} StopsBeforeAnd(ts: seq<Token>, sofar: seq<string>)
    requires MoreAnd(ts, sofar).Rest?
    ensures !StartsWith(MoreAnd(ts, sofar).tokens, AndOp)
    decreases |ts|
  {
    if StartsWith(ts, AndOp) {
      var next := Operand(ts[1..]);
      StopsBeforeAnd(next.tokens, sofar + next.prefixes);
    }
  }

  lemma {:induction false} StopsBeforeOperator(ts: seq<Token>, sofar: seq<string>)
    requires MoreOr(ts, sofar).Rest? && !StartsWith(ts, AndOp)
    ensures !StartsWith(MoreOr(ts, sofar).tokens, AndOp) && !StartsWith(MoreOr(ts, sofar).tokens, OrOp)
    decreases |ts|
  {
    if StartsWith(ts, OrOp) {
      var first, next := Operand(ts[1..]), Conjunction(ts[1..]);
      StopsBeforeAnd(first.tokens, first.prefixes);
      StopsBeforeOperator(next.tokens, sofar + next.prefixes);
    }
  }

  /** The parser takes a prefix and leaves the rest exactly if the prefix prints some tree and the rest starts with
      neither binary operator; the prefixes are the leaves of that tree. */
  lemma AcceptedIff(ts: seq<Token>, rest: seq<Token>, prefixes: seq<string>)
    ensures Disjunction(ts) == Rest(rest, prefixes) <==>
            && !StartsWith(rest, AndOp) && !StartsWith(rest, OrOp)
            && exists e :: Print(0, e) + rest == ts && Leaves(e) == prefixes
  {
    if Disjunction(ts) == Rest(rest, prefixes) {
      var e := DisjunctionIsTree(ts);
      var operand, first := Operand(ts), Conjunction(ts);
      StopsBeforeAnd(operand.tokens, operand.prefixes);
      StopsBeforeOperator(first.tokens, first.prefixes);
    }
    if !StartsWith(rest, AndOp) && !StartsWith(rest, OrOp) {
      if e :| Print(0, e) + rest == ts && Leaves(e) == prefixes {
        ParsesDisjunction(e, rest);
      }
    }
  }

  /** A token list is accepted in full exactly if it prints some tree, and then the prefixes are its leaves. */
  lemma AcceptedInFullIff(ts: seq<Token>, prefixes: seq<string>)
    ensures Disjunction(ts) == Rest([], prefixes) <==>
            exists e :: Print(0, e) == ts && Leaves(e) == prefixes
  {
    if Disjunction(ts) == Rest([], prefixes) {
      var e := DisjunctionIsTree(ts);
      assert Print(0, e) + [] == Print(0, e);
    }
    if e :| Print(0, e) == ts && Leaves(e) == prefixes {
      ParsesDisjunction(e, []);
      assert Print(0, e) + [] == ts;
    }
  }

  // ----- the parser object

  class Parser {
    const tokens: seq<Token>
    var position: nat
    var termPrefixes: seq<string>

    constructor (tokens: seq<Token>)
      ensures this.tokens == tokens && position == 0 && termPrefixes == []
    {
      this.tokens, position, termPrefixes := tokens, 0, [];
    }

    ghost predicate Valid()
      reads this
    {
      position <= |tokens|
    }

    ghost function Remaining(): seq<Token>
      requires Valid()
      reads this
    {
      tokens[position..]
    }

    /** The outcome of a method that parses from the old position. */
    twostate predicate Parsed(r: Parse, ok: bool)
      requires old(Valid())
      reads this
    {
      && Valid() && position >= old(position)
      && (ok <==> r.Rest?)
      && (ok ==> Remaining() == r.tokens && termPrefixes == old(termPrefixes) + r.prefixes)
    }

    function Peek(): Option<Token>
      reads this
    {
      if position < |tokens| then Some(tokens[position]) else None
    }

    method Consume() returns (t: Option<Token>)
      requires Valid()
      modifies this`position
      ensures Valid() && t == old(Peek())
      ensures Remaining() == if t.Some? then old(Remaining())[1..] else old(Remaining())
      ensures t.Some? ==> old(Remaining()) != [] && old(Remaining())[0] == t.value && position == old(position) + 1
    {
      t := Peek();
      if t.Some? {
        position := position + 1;
      }
    }

    method ParseExpression() returns (ok: bool)
      requires Valid()
      modifies this
      ensures Parsed(Operand(old(Remaining())), ok)
      decreases |tokens| - position, 1
    {
      var token := Peek();
      if token == Some(Open) {
        ok := ParseParentheses();
      } else if token == Some(NotOp) {
        ok := ParseNot();
      } else {
        ok := ParseTerm();
      }
    }

    method ParseTerm() returns (ok: bool)
      requires Valid() && Peek() != Some(Open) && Peek() != Some(NotOp)
      modifies this
      ensures Parsed(Operand(old(Remaining())), ok)
    {
      var token := Consume();
      if token.None? || !token.value.Word? {
        return false;
      }
      termPrefixes := termPrefixes + [Prefix(token.value.text)];
      return true;
    }

    method ParseParentheses() returns (ok: bool)
      requires Valid() && Peek() == Some(Open)
      modifies this
      ensures Parsed(Operand(old(Remaining())), ok)
      decreases |tokens| - position, 0
    {
      var opening := Consume();
      ok := ParseOr();
      if !ok {
        return;
      }
      var closing := Consume();
      ok := closing == Some(Close);
    }

    method ParseNot() returns (ok: bool)
      requires Valid() && Peek() == Some(NotOp)
      modifies this
      ensures Parsed(Operand(old(Remaining())), ok)
      decreases |tokens| - position, 0
    {
      var op := Consume();
      ok := ParseExpression();
    }

    /** One more operand after "&&". */
    method ParseAndOperand(ghost sofar: seq<string>) returns (ok: bool, ghost more: seq<string>)
      requires Valid() && Peek() == Some(AndOp)
      modifies this
      ensures Valid() && position > old(position)
      ensures ok ==> termPrefixes == old(termPrefixes) + more
                     && MoreAnd(old(Remaining()), sofar) == MoreAnd(Remaining(), sofar + more)
      ensures !ok ==> MoreAnd(old(Remaining()), sofar) == Fail
      decreases |tokens| - position, 0
    {
      var op := Consume();
      ghost var after := Remaining();
      assert old(Remaining()) == [AndOp] + after;
      StepAnd(after, sofar);
      ok := ParseExpression();
      more := if ok then Operand(after).prefixes else [];
    }

    method ParseAnd() returns (ok: bool)
      requires Valid()
      modifies this
      ensures Parsed(Conjunction(old(Remaining())), ok)
      decreases |tokens| - position, 2
    {
      ok := ParseExpression();
      if !ok {
        return;
      }
      ghost var sofar, more := Operand(old(Remaining())).prefixes, [];
      while Peek() == Some(AndOp)
        invariant ok && Valid() && position > old(position)
        invariant termPrefixes == old(termPrefixes) + sofar
        invariant Conjunction(old(Remaining())) == MoreAnd(Remaining(), sofar)
        decreases |tokens| - position
      {
        ok, more := ParseAndOperand(sofar);
        if !ok {
          return;
        }
        assert old(termPrefixes) + sofar + more == old(termPrefixes) + (sofar + more);
        sofar := sofar + more;
      }
    }

    /** One more conjunction after "||". */
    method ParseOrOperand(ghost sofar: seq<string>) returns (ok: bool, ghost more: seq<string>)
      requires Valid() && Peek() == Some(OrOp)
      modifies this
      ensures Valid() && position > old(position)
      ensures ok ==> termPrefixes == old(termPrefixes) + more
                     && MoreOr(old(Remaining()), sofar) == MoreOr(Remaining(), sofar + more)
      ensures !ok ==> MoreOr(old(Remaining()), sofar) == Fail
      decreases |tokens| - position, 0
    {
      var op := Consume();
      ghost var after := Remaining();
      assert old(Remaining()) == [OrOp] + after;
      StepOr(after, sofar);
      ok := ParseAnd();
      more := if ok then Conjunction(after).prefixes else [];
    }

    method ParseOr() returns (ok: bool)
      requires Valid()
      modifies this
      ensures Parsed(Disjunction(old(Remaining())), ok)
      decreases |tokens| - position, 3
    {
      ok := ParseAnd();
      if !ok {
        return;
      }
      ghost var sofar, more := Conjunction(old(Remaining())).prefixes, [];
      while Peek() == Some(OrOp)
        invariant ok && Valid() && position > old(position)
        invariant termPrefixes == old(termPrefixes) + sofar
        invariant Disjunction(old(Remaining())) == MoreOr(Remaining(), sofar)
        decreases |tokens| - position
      {
        ok, more := ParseOrOperand(sofar);
        if !ok {
          return;
        }
        assert old(termPrefixes) + sofar + more == old(termPrefixes) + (sofar + more);
        sofar := sofar + more;
      }
    }
  }

  // ----- the whole function

  /** A `depends` value: nothing, an explicit list, an expression, or something else. */
  datatype Source = Absent | Listed(names: seq<string>) | Expression(text: string) | Unsupported

  function FirstOccurrences(s: seq<string>): (r: seq<string>)
    ensures forall x :: x in r <==> x in s
  {
    if s == [] then []
    else
      var init, last := s[..|s| - 1], s[|s| - 1];
      assert s == init + [last];
      if last in init then FirstOccurrences(init) else FirstOccurrences(init) + [last]
  }

  /** Each name once, and what is found in a shorter list comes first. */
  lemma {:induction false} FirstOccurrencesOrder(s: seq<string>, k: nat)
    requires k <= |s|
    ensures NoDup(FirstOccurrences(s)) && FirstOccurrences(s[..k]) <= FirstOccurrences(s)
  {
    if s != [] {
      var init := s[..|s| - 1];
      FirstOccurrencesOrder(init, if k < |s| then k else |init|);
      assert k < |s| ==> init[..k] == s[..k];
      assert k == |s| ==> s[..k] == s;
    }
  }

  method Distinct(s: seq<string>) returns (r: seq<string>)
    ensures r == FirstOccurrences(s)
  {
    r := [];
    for i := 0 to |s|
      invariant r == FirstOccurrences(s[..i])
    {
      assert s[..i + 1][..i] == s[..i];
      if s[i] !in r {
        r := r + [s[i]];
      }
    }
    assert s[..|s|] == s;
  }

  function Unique(p: Parse): Result<seq<string>, ()> {
    if p.Fail? then Err(()) else Ok(FirstOccurrences(p.prefixes))
  }

  method ParseTokens(tokens: seq<Token>) returns (r: Result<seq<string>, ()>)
    ensures r == Unique(Disjunction(tokens))
  {
    var parser := new Parser(tokens);
    assert parser.Remaining() == tokens;
    var ok := parser.ParseOr();
    if !ok {
      return Err(());
    }
    assert parser.termPrefixes == Disjunction(tokens).prefixes;
    var names := Distinct(parser.termPrefixes);
    return Ok(names);
  }

  /** The names that an expression text gives: those of its tokens, or an error. */
  function NamesIn(text: string): Result<seq<string>, ()> {
    Unique(Disjunction(Classified(Lex(text, "", OPERATORS))))
  }

  /** A list is returned as it is, nothing gives nothing, and an expression gives its distinct task names or an
      error. */
  method ParseDepends(source: Source) returns (r: Result<seq<string>, ()>)
    ensures source.Absent? ==> r == Ok([])
    ensures source.Listed? ==> r == Ok(source.names)
    ensures source.Unsupported? ==> r == Err(())
    ensures source.Expression? ==> r == if source.text == "" then Ok([]) else NamesIn(source.text)
  {
    match source
    case Absent => return Ok([]);
    case Listed(names) => return Ok(names);
    case Unsupported => return Err(());
    case Expression(text) =>
      if text == "" {
        return Ok([]);
      }
      var texts := Tokenize(text);
      r := ParseTokens(Classified(texts));
  }

  // ----- every way of writing an expression tree down

  predicate PlainTerms(e: Expr) {
    match e
    case Term(t) => PlainWord(t, OPERATORS)
    case Not(a) => PlainTerms(a)
    case Parens(a) => PlainTerms(a)
    case And(l, r) => PlainTerms(l) && PlainTerms(r)
    case Or(l, r) => PlainTerms(l) && PlainTerms(r)
  }

  /** Plain words, never two in a row. */
  predicate Spaced(ts: seq<Token>) {
    && (forall i :: 0 <= i < |ts| && ts[i].Word? ==> PlainWord(ts[i].text, OPERATORS))
    && (forall i, j :: 0 <= i < |ts| && j == i + 1 && j < |ts| ==> !(ts[i].Word? && ts[j].Word?))
  }

  lemma SpacedAround(a: seq<Token>, op: Token, b: seq<Token>)
    requires Spaced(a) && Spaced(b) && !op.Word?
    ensures Spaced(a + [op] + b)
  {
    var ts := a + [op] + b;
    forall i, j | 0 <= i < |ts| && j == i + 1 && j < |ts| ensures !(ts[i].Word? && ts[j].Word?) {
      if i > |a| {
        assert ts[i] == b[i - |a| - 1] && ts[j] == b[j - |a| - 1];
      }
    }
  }

  lemma SpacedBracket(a: seq<Token>)
    requires Spaced(a)
    ensures Spaced([Open] + a + [Close])
  {
    SpacedAround([], Open, a);
    assert [] + [Open] + a == [Open] + a;
    SpacedAround([Open] + a, Close, []);
    assert [Open] + a + [Close] + [] == [Open] + a + [Close];
  }

  lemma {:induction false} PrintSpaced(level: nat, e: Expr)
    requires PlainTerms(e)
    ensures Spaced(Print(level, e))
    decreases e
  {
    match e
    case Term(_) =>
    case Not(a) =>
      PrintSpaced(2, a);
      SpacedAround([], NotOp, Print(2, a));
      assert [] + [NotOp] + Print(2, a) == Print(level, e);
    case Parens(a) =>
      PrintSpaced(0, a);
      SpacedBracket(Print(0, a));
    case And(l, r) =>
      PrintSpaced(1, l);
      PrintSpaced(1, r);
      SpacedAround(Print(1, l), AndOp, Print(1, r));
      SpacedBracket(Print(1, l) + [AndOp] + Print(1, r));
    case Or(l, r) =>
      PrintSpaced(0, l);
      PrintSpaced(0, r);
      SpacedAround(Print(0, l), OrOp, Print(0, r));
      SpacedBracket(Print(0, l) + [OrOp] + Print(0, r));
  }

  lemma SpellingBack(t: Token)
    requires t.Word? ==> PlainWord(t.text, OPERATORS)
    ensures TokenOf(Spelling(t)) == t
    ensures if t.Word? then PlainWord(Spelling(t), OPERATORS) else Spelling(t) in OPERATORS
  {
    assert OPERATORS[0] == "||" && OPERATORS[1] == "&&" && OPERATORS[2] == "!" && OPERATORS[3] == "("
           && OPERATORS[4] == ")";
    if t.Word? {
      assert Inert(t.text[0], OPERATORS);
    }
  }

  lemma SpacedIsRead(ts: seq<Token>, gaps: seq<string>, lead: string)
    requires Spaced(ts) && |gaps| == |ts| && Blank(lead) && forall i :: 0 <= i < |gaps| ==> Blank(gaps[i])
    ensures Classified(Lex(lead + Spelled(Spellings(ts), gaps), "", OPERATORS)) == ts
  {
    var texts := Spellings(ts);
    forall i | 0 <= i < |ts|
      ensures TokenOf(texts[i]) == ts[i] && (texts[i] in OPERATORS || PlainWord(texts[i], OPERATORS))
      ensures !ts[i].Word? ==> texts[i] in OPERATORS
    {
      SpellingBack(ts[i]);
    }
    assert Spellable(texts, gaps, OPERATORS) by {
      forall i | 0 <= i < |texts| - 1 ensures texts[i] in OPERATORS || texts[i + 1] in OPERATORS {
        var j := i + 1;
        assert !(ts[i].Word? && ts[j].Word?);
      }
    }
    SpelledIsLexed(texts, gaps, OPERATORS);
    LexBlank(lead, Spelled(texts, gaps), OPERATORS);
  }

  /** Every expression tree, written out with parentheses where they are needed and any whitespace or none around
      its tokens, gives its task names once each in order of first appearance. */
  lemma WrittenTreeGivesItsTasks(e: Expr, gaps: seq<string>, lead: string)
    requires PlainTerms(e) && |gaps| == |Print(0, e)| && Blank(lead) && forall i :: 0 <= i < |gaps| ==> Blank(gaps[i])
    ensures NamesIn(lead + Spelled(Spellings(Print(0, e)), gaps)) == Ok(FirstOccurrences(Leaves(e)))
  {
    PrintSpaced(0, e);
    SpacedIsRead(Print(0, e), gaps, lead);
    AcceptedInFullIff(Print(0, e), Leaves(e));
  }

  lemma SingleTerm(t: string)
    requires PlainWord(t, OPERATORS)
    ensures NamesIn(t) == Ok([Prefix(t)])
  {
    var e := Term(t);
    assert Print(0, e) == [Word(t)];
    assert Spellings(Print(0, e)) == [t];
    assert [t][1..] == [] && Concat([t]) == t;
    TightTree(e, t);
    OneName(Prefix(t));
  }

  /** A term gives the name before its first dot. */
  lemma TermGivesName(a: string, b: string)
    requires '.' !in a && PlainWord(a, OPERATORS) && AllInert(b, OPERATORS)
    ensures NamesIn(a) == Ok([a]) && NamesIn(a + "." + b) == Ok([a])
  {
    PrefixMeaning(a, b);
    SingleTerm(a);
    var t := a + ['.'] + b;
    assert t == a + "." + b;
    assert Inert('.', OPERATORS);
    SingleTerm(t);
  }

  /** Each operator as it is written. */
  lemma OperatorsGiveNames(a: string, b: string)
    requires PlainWord(a, OPERATORS) && PlainWord(b, OPERATORS) && '.' !in a && '.' !in b && a != b
    ensures NamesIn(a + "&&" + b) == Ok([a, b]) && NamesIn(a + "||" + b) == Ok([a, b])
    ensures NamesIn("!" + a) == Ok([a]) && NamesIn("(" + a + ")") == Ok([a])
  {
    PrefixMeaning(a, "");
    PrefixMeaning(b, "");
    TwoTerms(a, b, And(Term(a), Term(b)), "&&");
    TwoTerms(a, b, Or(Term(a), Term(b)), "||");
    NegatedTerm(a);
    BracketedTerm(a);
  }

  function Concat(texts: seq<string>): string {
    if texts == [] then "" else texts[0] + Concat(texts[1..])
  }

  lemma {:induction false} SpelledTight(texts: seq<string>, gaps: seq<string>)
    requires |gaps| == |texts| && forall i :: 0 <= i < |gaps| ==> gaps[i] == ""
    ensures Spelled(texts, gaps) == Concat(texts)
  {
    if texts != [] {
      SpelledTight(texts[1..], gaps[1..]);
      assert "" + Concat(texts[1..]) == Concat(texts[1..]);
    }
  }

  /** A tree written without any whitespace. */
  lemma TightTree(e: Expr, text: string)
    requires PlainTerms(e) && text == Concat(Spellings(Print(0, e)))
    ensures NamesIn(text) == Ok(FirstOccurrences(Leaves(e)))
  {
    var gaps := seq(|Print(0, e)|, i => "");
    WrittenTreeGivesItsTasks(e, gaps, "");
    SpelledTight(Spellings(Print(0, e)), gaps);
    assert "" + text == text;
  }

  lemma ConcatTwo(x: string, y: string)
    ensures Concat([x, y]) == x + y
  {
    assert [x, y][1..] == [y] && [y][1..] == [];
    assert Concat([y]) == y;
  }

  lemma ConcatThree(x: string, y: string, z: string)
    ensures Concat([x, y, z]) == x + y + z
  {
    assert [x, y, z][1..] == [y, z];
    ConcatTwo(y, z);
    assert x + (y + z) == x + y + z;
  }

  lemma OneName(a: string)
    ensures FirstOccurrences([a]) == [a]
  {
  }

  lemma TwoNames(a: string, b: string)
    requires a != b
    ensures FirstOccurrences([a, b]) == [a, b]
  {
    var s := [a, b];
    assert s[..|s| - 1] == [a] && s[|s| - 1] == b && b !in [a];
    OneName(a);
  }

  lemma TwoTerms(a: string, b: string, e: Expr, op: string)
    requires PlainWord(a, OPERATORS) && PlainWord(b, OPERATORS) && '.' !in a && '.' !in b && a != b
    requires (e == And(Term(a), Term(b)) && op == "&&") || (e == Or(Term(a), Term(b)) && op == "||")
    ensures NamesIn(a + op + b) == Ok([a, b])
  {
    PrefixMeaning(a, "");
    PrefixMeaning(b, "");
    assert Print(0, e) == [Word(a), if e.And? then AndOp else OrOp, Word(b)];
    assert Spellings(Print(0, e)) == [a, op, b];
    ConcatThree(a, op, b);
    TightTree(e, a + op + b);
    assert Leaves(e) == [a, b];
    TwoNames(a, b);
  }

  lemma NegatedTerm(a: string)
    requires PlainWord(a, OPERATORS) && '.' !in a
    ensures NamesIn("!" + a) == Ok([a])
  {
    PrefixMeaning(a, "");
    var e := Not(Term(a));
    assert Print(0, e) == [NotOp, Word(a)];
    assert Spellings(Print(0, e)) == ["!", a];
    ConcatTwo("!", a);
    TightTree(e, "!" + a);
    OneName(a);
  }

  lemma BracketedTerm(a: string)
    requires PlainWord(a, OPERATORS) && '.' !in a
    ensures NamesIn("(" + a + ")") == Ok([a])
  {
    PrefixMeaning(a, "");
    var e := Parens(Term(a));
    assert Print(0, e) == [Open, Word(a), Close];
    assert Spellings(Print(0, e)) == ["(", a, ")"];
    ConcatThree("(", a, ")");
    TightTree(e, "(" + a + ")");
    OneName(a);
  }
}
