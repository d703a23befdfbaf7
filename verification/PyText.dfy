/** The Python string operations that the range configuration goes through, on ASCII text. */
module PyText {
  import opened Common

  predicate IsSpace(c: char) {
    c == ' ' || '\t' <= c <= '\r' || '\U{1c}' <= c <= '\U{1f}'
  }

  /** Tab to carriage return, the four separators, and the space. */
  lemma SpaceMeaning(c: char)
    ensures IsSpace(c) <==> c as int in {9, 10, 11, 12, 13, 28, 29, 30, 31, 32}
  {
    assert '\t' as int == 9 && '\r' as int == 13 && ' ' as int == 32;
  }

  predicate IsDigit(c: char) {
    '0' <= c <= '9'
  }

  function LowerChar(c: char): char {
    if 'A' <= c <= 'Z' then c - 'A' + 'a' else c
  }

  function Lower(s: string): (l: string)
    ensures |l| == |s|
  {
    seq(|s|, i requires 0 <= i < |s| => LowerChar(s[i]))
  }

  /** Equal but for the case of letters. */
  predicate SameUpToCase(a: string, b: string) {
    |a| == |b| && forall i :: 0 <= i < |a| ==> SameLetter(a[i], b[i])
  }

  predicate SameLetter(c: char, d: char) {
    c == d || ('A' <= c <= 'Z' && d as int == c as int + 32) || ('A' <= d <= 'Z' && c as int == d as int + 32)
  }

  lemma LowerMeaning(a: string, b: string)
    ensures Lower(a) == Lower(b) <==> SameUpToCase(a, b)
  {
    forall i | 0 <= i < |a| && i < |b| ensures Lower(a)[i] == Lower(b)[i] <==> SameLetter(a[i], b[i]) {
      LowerCharMeaning(a[i], b[i]);
    }
  }

  lemma LowerCharMeaning(c: char, d: char)
    ensures LowerChar(c) == LowerChar(d) <==> SameLetter(c, d)
  {
    assert 'a' as int == 97 && 'A' as int == 65 && 'Z' as int == 90;
  }

  function StripLeft(s: string): string {
    if s != "" && IsSpace(s[0]) then StripLeft(s[1..]) else s
  }

  function StripRight(s: string): string {
    if s != "" && IsSpace(s[|s| - 1]) then StripRight(s[..|s| - 1]) else s
  }

  function Strip(s: string): string {
    StripRight(StripLeft(s))
  }

  predicate AllSpace(s: string) {
    forall i :: 0 <= i < |s| ==> IsSpace(s[i])
  }

  lemma {:induction false} StripLeftMeaning(s: string)
    ensures |StripLeft(s)| <= |s| && StripLeft(s) == s[|s| - |StripLeft(s)|..]
    ensures forall i :: 0 <= i < |s| - |StripLeft(s)| ==> IsSpace(s[i])
    ensures StripLeft(s) == "" || !IsSpace(StripLeft(s)[0])
  {
    if s != "" && IsSpace(s[0]) {
      StripLeftMeaning(s[1..]);
      assert forall i :: 1 <= i < |s| ==> s[i] == s[1..][i - 1];
    }
  }

  lemma {:induction false} StripRightMeaning(s: string)
    ensures |StripRight(s)| <= |s| && StripRight(s) == s[..|StripRight(s)|]
    ensures forall i :: |StripRight(s)| <= i < |s| ==> IsSpace(s[i])
    ensures StripRight(s) == "" || !IsSpace(StripRight(s)[|StripRight(s)| - 1])
  {
    if s != "" && IsSpace(s[|s| - 1]) {
      StripRightMeaning(s[..|s| - 1]);
    }
  }

  /** Stripping takes whitespace off both ends and nothing else, and leaves none there. */
  lemma StripMeaning(s: string) returns (pre: string, post: string)
    ensures s == pre + Strip(s) + post && AllSpace(pre) && AllSpace(post)
    ensures Strip(s) == "" || Unpadded(Strip(s))
  {
    StripLeftMeaning(s);
    StripRightMeaning(StripLeft(s));
    var left := StripLeft(s);
    pre, post := s[..|s| - |left|], left[|Strip(s)|..];
    assert left == Strip(s) + post && s == pre + left;
  }

  /** Index of the first occurrence of c, or the length. */
  function Find(s: string, c: char): (k: nat)
    ensures k <= |s| && c !in s[..k] && (k < |s| ==> s[k] == c)
  {
    if s == "" || s[0] == c then 0 else
      var k := 1 + Find(s[1..], c);
      assert s[..k] == [s[0]] + s[1..][..k - 1];
      k
  }

  function Split(s: string, c: char): seq<string>
    decreases |s|
  {
    var k := Find(s, c);
    if k == |s| then [s] else [s[..k]] + Split(s[k + 1..], c)
  }

  function Join(parts: seq<string>, c: char): string {
    if parts == [] then "" else if |parts| == 1 then parts[0] else parts[0] + [c] + Join(parts[1..], c)
  }

  lemma FindFirst(a: string, c: char, b: string)
    requires c !in a
    ensures Find(a, c) == |a|
    ensures Find(a + [c] + b, c) == |a|
  {
    var s := a + [c] + b;
    assert s[|a|] == c && forall i :: 0 <= i < |a| ==> s[i] == a[i];
  }

  lemma SplitStep(a: string, c: char, b: string)
    requires c !in a
    ensures Split(a, c) == [a]
    ensures Split(a + [c] + b, c) == [a] + Split(b, c)
  {
    FindFirst(a, c, b);
    var s := a + [c] + b;
    assert s[..|a|] == a && s[|a| + 1..] == b;
  }

  /** Splitting what was joined gives the parts back. */
  lemma {:induction false} SplitJoin(parts: seq<string>, c: char)
    requires parts != [] && forall i :: 0 <= i < |parts| ==> c !in parts[i]
    ensures Split(Join(parts, c), c) == parts
  {
    if |parts| == 1 {
      SplitStep(parts[0], c, "");
    } else {
      SplitStep(parts[0], c, Join(parts[1..], c));
      SplitJoin(parts[1..], c);
      assert parts == [parts[0]] + parts[1..];
    }
  }

  // ----- integers

  /** Decimal digits, with single underscores allowed between them. */
  function DigitsValue(s: string): Option<nat> {
    if s == "" || !IsDigit(s[|s| - 1]) then None
    else
      var d := (s[|s| - 1] - '0') as nat;
      var init := s[..|s| - 1];
      if init == "" then Some(d)
      else
        var head := if init[|init| - 1] == '_' then init[..|init| - 1] else init;
        match DigitsValue(head)
        case None => None
        case Some(v) => Some(10 * v + d)
  }

  function ParseInt(text: string): Option<int> {
    var s := Strip(text);
    if s == "" then None
    else if s[0] == '-' then
      match DigitsValue(s[1..]) case None => None case Some(v) => (var n: int := v; Some(-n))
    else
      match DigitsValue(if s[0] == '+' then s[1..] else s) case None => None case Some(v) => Some(v)
  }

  /** Digits with single underscores between them. */
  predicate Numeral(s: string) {
    && s != "" && IsDigit(s[0]) && IsDigit(s[|s| - 1])
    && (forall i :: 0 <= i < |s| ==> IsDigit(s[i]) || s[i] == '_')
    && (forall i, j :: 0 <= i < |s| && j == i + 1 && j < |s| ==> !(s[i] == '_' && s[j] == '_'))
  }

  /** Reading from the left: each digit adds a place, and underscores do not count. */
  function Reading(s: string, sofar: nat): nat {
    if s == "" then sofar
    else if IsDigit(s[0]) then Reading(s[1..], 10 * sofar + (s[0] as int - '0' as int))
    else Reading(s[1..], sofar)
  }

  lemma {:induction false} ReadingSnoc(s: string, c: char, sofar: nat)
    ensures Reading(s + [c], sofar) ==
            if IsDigit(c) then 10 * Reading(s, sofar) + (c as int - '0' as int) else Reading(s, sofar)
  {
    if s == "" {
      assert s + [c] == [c];
    } else {
      var next := if IsDigit(s[0]) then 10 * sofar + (s[0] as int - '0' as int) else sofar;
      ReadingSnoc(s[1..], c, next);
      assert (s + [c])[0] == s[0] && (s + [c])[1..] == s[1..] + [c];
    }
  }

  lemma NumeralParts(s: string)
    requires |s| >= 2 && IsDigit(s[|s| - 1])
    ensures var init := s[..|s| - 1];
            Numeral(s) <==> Numeral(if init[|init| - 1] == '_' then init[..|init| - 1] else init)
  {
    var init := s[..|s| - 1];
    var head := if init[|init| - 1] == '_' then init[..|init| - 1] else init;
    assert forall i :: 0 <= i < |head| ==> head[i] == s[i];
    assert init[|init| - 1] == s[|s| - 2];
    if Numeral(s) && init[|init| - 1] == '_' {
      assert s[0] != '_';
      assert s[|s| - 3] != '_' by {
        var i, j := |s| - 3, |s| - 2;
        assert j == i + 1;
      }
    }
    if Numeral(head) {
      assert forall i :: 0 <= i < |s| ==> i < |head| || i == |s| - 1 || (i == |s| - 2 && s[i] == '_');
    }
  }

  /** What counts as digits and which number they spell. */
  lemma {:induction false} DigitsMeaning(s: string)
    ensures DigitsValue(s) == if Numeral(s) then Some(Reading(s, 0)) else None
  {
    if s != "" && IsDigit(s[|s| - 1]) {
      var init, d := s[..|s| - 1], s[|s| - 1];
      assert s == init + [d];
      ReadingSnoc(init, d, 0);
      if init != "" {
        var head := if init[|init| - 1] == '_' then init[..|init| - 1] else init;
        NumeralParts(s);
        DigitsMeaning(head);
        if init[|init| - 1] == '_' {
          assert init == head + ['_'];
          ReadingSnoc(head, '_', 0);
        }
      }
    }
  }

  /** int(text): whitespace around, at most one sign, then digits. */
  lemma ParseIntMeaning(text: string, v: int)
    ensures ParseInt(text) == Some(v) <==>
            var s := Strip(text);
            || (Numeral(s) && v == Reading(s, 0))
            || (|s| > 0 && s[0] == '+' && Numeral(s[1..]) && v == Reading(s[1..], 0))
            || (|s| > 0 && s[0] == '-' && Numeral(s[1..]) && v == 0 - Reading(s[1..], 0))
  {
    var s := Strip(text);
    DigitsMeaning(s);
    if s != "" {
      DigitsMeaning(s[1..]);
    }
  }

  function NatText(n: nat): (s: string)
    ensures s != "" && forall i :: 0 <= i < |s| ==> IsDigit(s[i])
  {
    if n < 10 then ['0' + n as char] else NatText(n / 10) + ['0' + (n % 10) as char]
  }

  function IntText(i: int): (s: string)
    ensures s != ""
  {
    if i < 0 then "-" + NatText(-i) else NatText(i)
  }

  /** No digit too many: only zero starts with a zero. */
  lemma {:induction false} NatTextShort(n: nat)
    ensures NatText(n)[0] == '0' <==> n == 0
    ensures NatText(n)[0] == '0' ==> |NatText(n)| == 1
  {
    if n >= 10 {
      NatTextShort(n / 10);
    }
  }

  lemma {:induction false} DigitsRoundTrip(n: nat)
    ensures DigitsValue(NatText(n)) == Some(n)
  {
    if n >= 10 {
      DigitsRoundTrip(n / 10);
      var s := NatText(n);
      assert s[..|s| - 1] == NatText(n / 10);
    } else {
      var s := NatText(n);
      assert s[..|s| - 1] == "";
    }
  }

  predicate Unpadded(s: string) {
    s != "" && !IsSpace(s[0]) && !IsSpace(s[|s| - 1])
  }

  lemma StripUnpadded(s: string)
    requires Unpadded(s)
    ensures Strip(s) == s
  {
  }

  /** Printing an integer and parsing it back. */
  lemma IntRoundTrip(i: int)
    ensures ParseInt(IntText(i)) == Some(i)
    ensures Unpadded(IntText(i)) && ':' !in IntText(i) && ',' !in IntText(i)
  {
    var s := IntText(i);
    if i < 0 {
      DigitsRoundTrip(-i);
      assert s[1..] == NatText(-i);
    } else {
      DigitsRoundTrip(i);
    }
    StripUnpadded(s);
  }
}
