/** Splitting a `depends` text into tokens: pad every operator with spaces, then split at whitespace. */
module Tokens {
  import opened PyText

  const OPERATORS := ["||", "&&", "!", "(", ")"]

  /** str.replace(op, " " + op + " ") */
  function Pad(s: string, op: string): string
    requires op != ""
    decreases |s|
  {
    if s == "" then ""
    else if op <= s then " " + op + " " + Pad(s[|op|..], op)
    else [s[0]] + Pad(s[1..], op)
  }

  function Flush(word: string): seq<string> {
    if word == "" then [] else [word]
  }

  /** str.split(), with the word that is being read. */
  function Words(s: string, word: string): seq<string>
    decreases |s|
  {
    if s == "" then Flush(word)
    else if IsSpace(s[0]) then Flush(word) + Words(s[1..], "")
    else Words(s[1..], word + [s[0]])
  }

  /** An operator repeats one character, which no other operator uses. */
  predicate Independent(ops: seq<string>) {
    && (forall i :: 0 <= i < |ops| ==> ops[i] != "" && !IsSpace(ops[i][0]) && Repeats(ops[i]))
    && (forall i, j :: 0 <= i < j < |ops| ==> ops[i][0] != ops[j][0])
  }

  predicate Repeats(op: string) {
    forall k :: 0 <= k < |op| ==> op[k] == op[0]
  }

  /** The operator that the text starts with, if any. */
  function Leading(s: string, ops: seq<string>): (op: string)
    ensures op != "" ==> op in ops && op <= s
    ensures op == "" ==> forall o :: o in ops && o != "" ==> !(o <= s)
  {
    if ops == [] then ""
    else
      assert ops == [ops[0]] + ops[1..];
      if ops[0] != "" && ops[0] <= s then ops[0] else Leading(s, ops[1..])
  }

  /** A lexer that reads the text once from the left: operators stand alone, whitespace separates. */
  function Lex(s: string, word: string, ops: seq<string>): seq<string>
    decreases |s|
  {
    if s == "" then Flush(word)
    else
      var op := Leading(s, ops);
      if op != "" then Flush(word) + [op] + Lex(s[|op|..], "", ops)
      else if IsSpace(s[0]) then Flush(word) + Lex(s[1..], "", ops)
      else Lex(s[1..], word + [s[0]], ops)
  }

  // ----- padding and splitting is that lexer

  lemma PadStep(c: char, t: string, op: string)
    requires op != "" && op[0] != c
    ensures Pad([c] + t, op) == [c] + Pad(t, op)
  {
    assert ([c] + t)[0] == c && ([c] + t)[1..] == t;
  }

  lemma {:induction false} PadSkips(w: string, t: string, op: string)
    requires op != "" && forall i :: 0 <= i < |w| ==> w[i] != op[0]
    ensures Pad(w + t, op) == w + Pad(t, op)
  {
    if w == "" {
      assert w + t == t;
    } else {
      var v := w[1..];
      PadSkips(v, t, op);
      PadStep(w[0], v + t, op);
      assert w + t == [w[0]] + (v + t);
      assert w + Pad(t, op) == [w[0]] + (v + Pad(t, op));
    }
  }

  /** What padding shows at the front without a space was there before. */
  lemma {:induction false} PadPrefix(w: string, t: string, op: string)
    requires op != "" && (forall i :: 0 <= i < |w| ==> w[i] != ' ') && w <= Pad(t, op)
    ensures w <= t
    decreases |t|
  {
    if w != "" {
      assert w[0] == Pad(t, op)[0];
      assert Pad(t, op)[1..] == Pad(t[1..], op);
      var v := w[1..];
      PadPrefix(v, t[1..], op);
      assert w == [w[0]] + v && t == [t[0]] + t[1..];
    }
  }

  /** A character that is neither whitespace nor the start of an operator. */
  predicate Inert(c: char, ops: seq<string>) {
    !IsSpace(c) && forall i :: 0 <= i < |ops| ==> ops[i] != "" && ops[i][0] != c
  }

  lemma LexStep(c: char, t: string, word: string, ops: seq<string>)
    requires Inert(c, ops)
    ensures Lex([c] + t, word, ops) == Lex(t, word + [c], ops)
  {
    var s := [c] + t;
    assert s[0] == c && s[1..] == t;
    assert Leading(s, ops) == "";
  }

  predicate AllInert(w: string, ops: seq<string>) {
    forall i :: 0 <= i < |w| ==> Inert(w[i], ops)
  }

  /** Characters that start no operator are added to the word. */
  lemma {:induction false} LexPlain(w: string, t: string, word: string, ops: seq<string>)
    requires AllInert(w, ops)
    ensures Lex(w + t, word, ops) == Lex(t, word + w, ops)
    decreases |w|
  {
    if w == "" {
      assert w + t == t && word + w == word;
    } else {
      var v := w[1..];
      LexPlain(v, t, word + [w[0]], ops);
      LexStep(w[0], v + t, word, ops);
      assert w + t == [w[0]] + (v + t);
      assert word + [w[0]] + v == word + w;
    }
  }

  lemma LexSpace(c: char, t: string, word: string, ops: seq<string>)
    requires Independent(ops) && IsSpace(c)
    ensures Lex([c] + t, word, ops) == Flush(word) + Lex(t, "", ops)
  {
    var s := [c] + t;
    assert s[0] == c && s[1..] == t;
    assert Leading(s, ops) == "";
  }

  lemma LexOperator(op: string, t: string, word: string, ops: seq<string>)
    requires Independent(ops) && op in ops
    ensures Lex(op + t, word, ops) == Flush(word) + [op] + Lex(t, "", ops)
  {
    var s := op + t;
    assert op <= s && op != "";
    var o := Leading(s, ops);
    assert o != "" && o[0] == s[0] == op[0];
    assert o == op;
    assert s[|op|..] == t;
  }

  /** One replacement turns an operator into words of its own. */
  lemma {:induction false} PadIsLexed(s: string, word: string, op: string, rest: seq<string>)
    requires op != "" && Independent([op] + rest)
    ensures Lex(s, word, [op] + rest) == Lex(Pad(s, op), word, rest)
    decreases |s|
  {
    if s != "" {
      var o := Leading(s, [op] + rest);
      if op <= s {
        PadIsLexed(s[|op|..], "", op, rest);
        OwnStep(s, word, op, rest);
      } else if o != "" {
        PadIsLexed(s[|o|..], "", op, rest);
        OtherStep(s, word, op, rest, o);
      } else {
        PlainStep(s, word, op, rest);
        PadIsLexed(s[1..], if IsSpace(s[0]) then "" else word + [s[0]], op, rest);
      }
    }
  }

  lemma OwnStep(s: string, word: string, op: string, rest: seq<string>)
    requires op != "" && Independent([op] + rest) && op <= s
    ensures Lex(s, word, [op] + rest) == Flush(word) + [op] + Lex(s[|op|..], "", [op] + rest)
    ensures Lex(Pad(s, op), word, rest) == Flush(word) + [op] + Lex(Pad(s[|op|..], op), "", rest)
  {
    var tail := s[|op|..];
    assert s == op + tail && op in [op] + rest;
    LexOperator(op, tail, word, [op] + rest);
    PaddedOperator(op, Pad(tail, op), word, rest);
  }

  lemma OtherStep(s: string, word: string, op: string, rest: seq<string>, o: string)
    requires op != "" && Independent([op] + rest) && !(op <= s) && o in [op] + rest && o <= s
    ensures Lex(s, word, [op] + rest) == Flush(word) + [o] + Lex(s[|o|..], "", [op] + rest)
    ensures Lex(Pad(s, op), word, rest) == Flush(word) + [o] + Lex(Pad(s[|o|..], op), "", rest)
  {
    var tail := s[|o|..];
    assert s == o + tail && o in rest;
    TailIndependent(op, rest);
    OtherOperator(op, rest, o);
    LexOperator(o, tail, word, [op] + rest);
    PadSkips(o, tail, op);
    LexOperator(o, Pad(tail, op), word, rest);
  }

  lemma TailIndependent(op: string, rest: seq<string>)
    requires Independent([op] + rest)
    ensures Independent(rest) && op != "" && !IsSpace(op[0]) && Repeats(op)
    ensures forall i :: 0 <= i < |rest| ==> rest[i][0] != op[0]
  {
    var ops := [op] + rest;
    assert ops[0] == op && forall i :: 0 <= i < |rest| ==> ops[i + 1] == rest[i];
  }

  lemma OtherOperator(op: string, rest: seq<string>, o: string)
    requires op != "" && Independent([op] + rest) && o in rest
    ensures o != "" && forall i :: 0 <= i < |o| ==> o[i] != op[0] && o[i] != ' '
  {
    TailIndependent(op, rest);
    assert Repeats(o);
  }

  lemma PaddedOperator(op: string, t: string, word: string, rest: seq<string>)
    requires Independent([op] + rest)
    ensures Lex(" " + op + " " + t, word, rest) == Flush(word) + [op] + Lex(t, "", rest)
  {
    TailIndependent(op, rest);
    assert " " + op + " " + t == " " + (op + (" " + t));
    LexSpace(' ', op + (" " + t), word, rest);
    LexPlain(op, " " + t, "", rest);
    assert "" + op == op;
    LexSpace(' ', t, op, rest);
  }

  lemma PlainStep(s: string, word: string, op: string, rest: seq<string>)
    requires op != "" && Independent([op] + rest) && s != "" && Leading(s, [op] + rest) == ""
    ensures var next := if IsSpace(s[0]) then "" else word + [s[0]];
            var out := if IsSpace(s[0]) then Flush(word) else [];
            && Lex(s, word, [op] + rest) == out + Lex(s[1..], next, [op] + rest)
            && Lex(Pad(s, op), word, rest) == out + Lex(Pad(s[1..], op), next, rest)
  {
    TailIndependent(op, rest);
    assert op in [op] + rest;
    var p := Pad(s, op);
    assert p[0] == s[0] && p[1..] == Pad(s[1..], op);
    var o := Leading(p, rest);
    if o != "" {
      OtherOperator(op, rest, o);
      assert o in [op] + rest;
      PadPrefix(o, s, op);
    }
  }

  function PadAll(s: string, ops: seq<string>): string
    requires forall i :: 0 <= i < |ops| ==> ops[i] != ""
    decreases |ops|
  {
    if ops == [] then s else PadAll(Pad(s, ops[0]), ops[1..])
  }

  lemma {:induction false} LexWithoutOperators(s: string, word: string)
    ensures Lex(s, word, []) == Words(s, word)
    decreases |s|
  {
    if s != "" {
      LexWithoutOperators(s[1..], if IsSpace(s[0]) then "" else word + [s[0]]);
    }
  }

  /** Replacing the operators one after another and splitting at whitespace is reading the text once. */
  lemma {:induction false} SplittingIsLexing(s: string, ops: seq<string>)
    requires Independent(ops)
    ensures Words(PadAll(s, ops), "") == Lex(s, "", ops)
    decreases |ops|
  {
    if ops == [] {
      LexWithoutOperators(s, "");
    } else {
      assert ops == [ops[0]] + ops[1..];
      PadIsLexed(s, "", ops[0], ops[1..]);
      TailIndependent(ops[0], ops[1..]);
      SplittingIsLexing(Pad(s, ops[0]), ops[1..]);
    }
  }

  method Tokenize(text: string) returns (tokens: seq<string>)
    ensures tokens == Lex(text, "", OPERATORS)
  {
    var padded := text;
    for i := 0 to |OPERATORS|
      invariant PadAll(padded, OPERATORS[i..]) == PadAll(text, OPERATORS)
    {
      padded := Pad(padded, OPERATORS[i]);
      assert OPERATORS[i..][1..] == OPERATORS[i + 1..];
    }
    SplittingIsLexing(text, OPERATORS);
    tokens := Words(padded, "");
  }

  // ----- spelling tokens out, with or without whitespace

  predicate PlainWord(w: string, ops: seq<string>) {
    w != "" && AllInert(w, ops)
  }

  predicate Blank(gap: string) {
    forall i :: 0 <= i < |gap| ==> IsSpace(gap[i])
  }

  /** Operators and plain words; whitespace is needed only between two words. */
  predicate Spellable(tokens: seq<string>, gaps: seq<string>, ops: seq<string>) {
    && |gaps| == |tokens|
    && (forall i :: 0 <= i < |tokens| ==> (tokens[i] in ops || PlainWord(tokens[i], ops)) && Blank(gaps[i]))
    && (forall i :: 0 <= i < |tokens| - 1 ==> tokens[i] in ops || tokens[i + 1] in ops || gaps[i] != "")
  }

  function Spelled(tokens: seq<string>, gaps: seq<string>): string
    requires |gaps| == |tokens|
  {
    if tokens == [] then "" else tokens[0] + (gaps[0] + Spelled(tokens[1..], gaps[1..]))
  }

  lemma {:induction false} LexBlank(gap: string, t: string, ops: seq<string>)
    requires Independent(ops) && Blank(gap)
    ensures Lex(gap + t, "", ops) == Lex(t, "", ops)
  {
    if gap == "" {
      assert gap + t == t;
    } else {
      LexBlank(gap[1..], t, ops);
      LexSpace(gap[0], gap[1..] + t, "", ops);
      assert gap + t == [gap[0]] + (gap[1..] + t);
    }
  }

  /** Whatever the whitespace, a spelled text is split into the tokens it was made of. */
  lemma {:induction false} SpelledIsLexed(tokens: seq<string>, gaps: seq<string>, ops: seq<string>)
    requires Independent(ops) && Spellable(tokens, gaps, ops)
    ensures Lex(Spelled(tokens, gaps), "", ops) == tokens
  {
    if tokens != [] {
      var rest, more := tokens[1..], gaps[1..];
      SpellableTail(tokens, gaps, ops);
      SpelledIsLexed(rest, more, ops);
      var tail := gaps[0] + Spelled(rest, more);
      LexBlank(gaps[0], Spelled(rest, more), ops);
      assert tokens == [tokens[0]] + rest;
      if tokens[0] in ops {
        LexOperator(tokens[0], tail, "", ops);
        assert Flush("") + [tokens[0]] == [tokens[0]];
      } else {
        LexPlain(tokens[0], tail, "", ops);
        assert "" + tokens[0] == tokens[0];
        WordEnds(tokens, gaps, ops);
      }
    }
  }

  lemma SpellableTail(tokens: seq<string>, gaps: seq<string>, ops: seq<string>)
    requires Independent(ops) && Spellable(tokens, gaps, ops) && tokens != []
    ensures Spellable(tokens[1..], gaps[1..], ops)
  {
    var rest, more := tokens[1..], gaps[1..];
    forall i | 0 <= i < |rest| ensures (rest[i] in ops || PlainWord(rest[i], ops)) && Blank(more[i]) {
      assert rest[i] == tokens[i + 1] && more[i] == gaps[i + 1];
    }
    forall i | 0 <= i < |rest| - 1 ensures rest[i] in ops || rest[i + 1] in ops || more[i] != "" {
      assert rest[i] == tokens[i + 1] && rest[i + 1] == tokens[i + 2] && more[i] == gaps[i + 1];
    }
  }

  lemma SpaceEnds(c: char, t: string, w: string, ops: seq<string>)
    requires Independent(ops) && IsSpace(c) && w != ""
    ensures Lex([c] + t, w, ops) == [w] + Lex([c] + t, "", ops)
  {
    LexSpace(c, t, w, ops);
    LexSpace(c, t, "", ops);
  }

  lemma FlushFirst(w: string, op: string, rest: seq<string>)
    requires w != ""
    ensures Flush(w) + [op] + rest == [w] + (Flush("") + [op] + rest)
  {
  }

  lemma OperatorEnds(op: string, t: string, w: string, ops: seq<string>)
    requires Independent(ops) && op in ops && w != ""
    ensures Lex(op + t, w, ops) == [w] + Lex(op + t, "", ops)
  {
    LexOperator(op, t, w, ops);
    LexOperator(op, t, "", ops);
    FlushFirst(w, op, Lex(t, "", ops));
  }

  /** What follows a word ends it. */
  lemma WordEnds(tokens: seq<string>, gaps: seq<string>, ops: seq<string>)
    requires Independent(ops) && Spellable(tokens, gaps, ops) && tokens != [] && tokens[0] !in ops
    ensures var tail := gaps[0] + Spelled(tokens[1..], gaps[1..]);
            Lex(tail, tokens[0], ops) == [tokens[0]] + Lex(tail, "", ops)
  {
    var w, next, more := tokens[0], tokens[1..], gaps[1..];
    if gaps[0] != "" {
      assert gaps[0] + Spelled(next, more) == [gaps[0][0]] + (gaps[0][1..] + Spelled(next, more));
      SpaceEnds(gaps[0][0], gaps[0][1..] + Spelled(next, more), w, ops);
    } else {
      assert gaps[0] + Spelled(next, more) == Spelled(next, more);
      if next != [] {
        assert next[0] == tokens[1];
        OperatorEnds(next[0], more[0] + Spelled(next[1..], more[1..]), w, ops);
      }
    }
  }
}
