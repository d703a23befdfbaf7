/** Sorting with an explicit order: the library sorts that several components call.
    The sorted arrangement of a multiset is unique, which is what makes results canonical. */
module Sorting {

  ghost predicate TotalOrder<T(!new)>(leq: (T, T) -> bool) {
    && (forall x, y :: leq(x, y) || leq(y, x))
    && (forall x, y :: leq(x, y) && leq(y, x) ==> x == y)
    && (forall x, y, z :: leq(x, y) && leq(y, z) ==> leq(x, z))
  }

  ghost predicate Sorted<T>(leq: (T, T) -> bool, s: seq<T>) {
    forall i, j :: 0 <= i < j < |s| ==> leq(s[i], s[j])
  }

  predicate NoDup<T(==)>(s: seq<T>) {
    forall i, j :: 0 <= i < j < |s| ==> s[i] != s[j]
  }

  function Insert<T>(leq: (T, T) -> bool, x: T, s: seq<T>): seq<T> {
    if s == [] || leq(x, s[0]) then [x] + s else [s[0]] + Insert(leq, x, s[1..])
  }

  function Sort<T>(leq: (T, T) -> bool, s: seq<T>): seq<T> {
    if s == [] then [] else Insert(leq, s[0], Sort(leq, s[1..]))
  }

  lemma {:induction false} InsertSorted<T(!new)>(leq: (T, T) -> bool, x: T, s: seq<T>)
    requires TotalOrder(leq) && Sorted(leq, s)
    ensures Sorted(leq, Insert(leq, x, s))
    ensures multiset(Insert(leq, x, s)) == multiset(s) + multiset{x}
  {
    if s == [] {
    } else if leq(x, s[0]) {
    } else {
      var rest := Insert(leq, x, s[1..]);
      InsertSorted(leq, x, s[1..]);
      assert s == [s[0]] + s[1..];
      forall i | 0 <= i < |rest| ensures leq(s[0], rest[i]) {
        assert rest[i] in multiset(rest);
        assert rest[i] == x || rest[i] in s[1..];
      }
    }
  }

  /** A sorted rearrangement of the input. */
  lemma {:induction false} SortSorts<T(!new)>(leq: (T, T) -> bool, s: seq<T>)
    requires TotalOrder(leq)
    ensures Sorted(leq, Sort(leq, s))
    ensures multiset(Sort(leq, s)) == multiset(s)
    ensures |Sort(leq, s)| == |s|
    ensures forall x :: x in Sort(leq, s) <==> x in s
  {
    if s != [] {
      assert s == [s[0]] + s[1..];
      SortSorts(leq, s[1..]);
      InsertSorted(leq, s[0], Sort(leq, s[1..]));
    }
    assert |multiset(Sort(leq, s))| == |multiset(s)|;
    forall x ensures x in Sort(leq, s) <==> x in s {
      assert x in Sort(leq, s) <==> x in multiset(Sort(leq, s));
      assert x in s <==> x in multiset(s);
    }
  }

  lemma TailMultiset<T>(a: seq<T>)
    requires a != []
    ensures multiset(a[1..]) == multiset(a) - multiset{a[0]}
  {
    assert a == [a[0]] + a[1..];
  }

  lemma HeadIsMinimal<T(!new)>(leq: (T, T) -> bool, a: seq<T>, x: T)
    requires TotalOrder(leq) && Sorted(leq, a) && x in multiset(a)
    ensures a != [] && leq(a[0], x)
  {
    var i :| 0 <= i < |a| && a[i] == x;
    assert leq(a[0], a[0]);
  }

  lemma HeadsAgree<T(!new)>(leq: (T, T) -> bool, a: seq<T>, b: seq<T>)
    requires TotalOrder(leq) && Sorted(leq, a) && Sorted(leq, b)
    requires multiset(a) == multiset(b) && a != [] && b != []
    ensures a[0] == b[0]
  {
    assert a[0] in multiset(a) && b[0] in multiset(b);
    HeadIsMinimal(leq, a, b[0]);
    HeadIsMinimal(leq, b, a[0]);
  }

  /** Two sorted sequences with the same elements are the same sequence. */
  lemma {:induction false} SortedUnique<T(!new)>(leq: (T, T) -> bool, a: seq<T>, b: seq<T>)
    requires TotalOrder(leq) && Sorted(leq, a) && Sorted(leq, b)
    requires multiset(a) == multiset(b)
    ensures a == b
  {
    if a == [] {
      assert |b| == |multiset(b)| == |multiset(a)| == 0;
    } else {
      assert b != [] by {
        assert a[0] in multiset(b);
      }
      HeadsAgree(leq, a, b);
      TailMultiset(a);
      TailMultiset(b);
      SortedTail(leq, a);
      SortedTail(leq, b);
      SortedUnique(leq, a[1..], b[1..]);
      assert a == [a[0]] + a[1..] && b == [b[0]] + b[1..];
    }
  }

  lemma SortedTail<T(!new)>(leq: (T, T) -> bool, a: seq<T>)
    requires Sorted(leq, a) && a != []
    ensures Sorted(leq, a[1..])
  {
    var t := a[1..];
    forall i, j | 0 <= i < j < |t| ensures leq(t[i], t[j]) {
      assert t[i] == a[i + 1] && t[j] == a[j + 1];
    }
  }

  /** Duplicate-free sequences over the same elements have equal multisets. */
  lemma {:induction false} NoDupMultiset<T>(a: seq<T>, b: seq<T>)
    requires NoDup(a) && NoDup(b)
    requires forall x :: x in a <==> x in b
    ensures multiset(a) == multiset(b)
  {
    forall x ensures multiset(a)[x] == multiset(b)[x] {
      NoDupOccurs(a, x);
      NoDupOccurs(b, x);
    }
  }

  lemma {:induction false} NoDupOccurs<T>(a: seq<T>, x: T)
    requires NoDup(a)
    ensures multiset(a)[x] == if x in a then 1 else 0
  {
    if a != [] {
      assert a == [a[0]] + a[1..];
      NoDupOccurs(a[1..], x);
    }
  }

  lemma {:induction false} MultisetNoDup<T>(a: seq<T>)
    requires forall x :: multiset(a)[x] <= 1
    ensures NoDup(a)
  {
    if a != [] {
      assert a == [a[0]] + a[1..];
      forall x ensures multiset(a)[x] == multiset{a[0]}[x] + multiset(a[1..])[x] {
        assert multiset(a) == multiset{a[0]} + multiset(a[1..]);
      }
      assert multiset(a)[a[0]] <= 1;
      forall x ensures multiset(a[1..])[x] <= 1 {
        assert multiset(a)[x] <= 1;
      }
      MultisetNoDup(a[1..]);
      forall i, j | 0 <= i < j < |a| ensures a[i] != a[j] {
        if i == 0 {
          assert a[j] == a[1..][j - 1];
          assert a[j] in multiset(a[1..]);
        } else {
          assert a[i] == a[1..][i - 1] && a[j] == a[1..][j - 1];
        }
      }
    }
  }

  lemma SortNoDup<T(!new)>(leq: (T, T) -> bool, s: seq<T>)
    requires TotalOrder(leq) && NoDup(s)
    ensures NoDup(Sort(leq, s))
  {
    SortSorts(leq, s);
    forall x ensures multiset(Sort(leq, s))[x] <= 1 {
      NoDupOccurs(s, x);
    }
    MultisetNoDup(Sort(leq, s));
  }

  lemma {:induction false} NoDupLength<T>(s: seq<T>)
    requires NoDup(s)
    ensures |set x | x in s| == |s|
  {
    if s != [] {
      assert s == [s[0]] + s[1..];
      NoDupLength(s[1..]);
      assert (set x | x in s) == (set x | x in s[1..]) + {s[0]};
      assert s[0] !in s[1..];
    }
  }

  /** A sequence longer than the finite set it draws from repeats an element. */
  lemma Pigeonhole<T>(s: seq<T>, u: set<T>) returns (i: nat, j: nat)
    requires forall x :: x in s ==> x in u
    requires |s| > |u|
    ensures i < j < |s| && s[i] == s[j]
  {
    if NoDup(s) {
      NoDupLength(s);
      SubsetSize((set x | x in s), u);
      assert false;
    }
    i, j :| 0 <= i < j < |s| && s[i] == s[j];
  }

  lemma {:induction false} SubsetSize<T>(a: set<T>, b: set<T>)
    requires a <= b
    ensures |a| <= |b|
  {
    if a != {} {
      var x :| x in a;
      SubsetSize(a - {x}, b - {x});
    }
  }

  /** Go's string order: lexicographic by code point. */
  predicate StrLeq(a: string, b: string) {
    a == "" || (b != "" && (a[0] < b[0] || (a[0] == b[0] && StrLeq(a[1..], b[1..]))))
  }

  lemma StrLeqTotalOrder()
    ensures TotalOrder(StrLeq)
  {
    forall x, y ensures StrLeq(x, y) || StrLeq(y, x) { StrTotal(x, y); }
    forall x, y | StrLeq(x, y) && StrLeq(y, x) ensures x == y { StrAntisymmetric(x, y); }
    forall x, y, z | StrLeq(x, y) && StrLeq(y, z) ensures StrLeq(x, z) { StrTransitive(x, y, z); }
  }

  /** They agree before position k and differ there, a with the smaller character. */
  predicate SmallerAt(a: string, b: string, k: nat) {
    k < |a| && k < |b| && a[..k] == b[..k] && a[k] < b[k]
  }

  lemma SmallerAtTail(a: string, b: string, k: nat)
    requires a != "" && b != "" && a[0] == b[0]
    ensures SmallerAt(a[1..], b[1..], k) <==> SmallerAt(a, b, k + 1)
  {
    if k < |a| - 1 && k < |b| - 1 {
      assert a[..k + 1] == [a[0]] + a[1..][..k] && b[..k + 1] == [b[0]] + b[1..][..k];
      assert a[1..][..k] == a[..k + 1][1..] && b[1..][..k] == b[..k + 1][1..];
    }
  }

  /** A prefix comes first, and otherwise the first character that differs decides. */
  lemma {:induction false} StrLeqIff(a: string, b: string)
    ensures StrLeq(a, b) <==> a <= b || exists k: nat :: SmallerAt(a, b, k)
  {
    if a != "" && b != "" {
      if a[0] == b[0] {
        StrLeqIff(a[1..], b[1..]);
        assert a == [a[0]] + a[1..] && b == [b[0]] + b[1..];
        if k: nat :| SmallerAt(a, b, k) {
          SmallerAtTail(a, b, k - 1);
        }
        if k: nat :| SmallerAt(a[1..], b[1..], k) {
          SmallerAtTail(a, b, k);
        }
      } else {
        assert SmallerAt(a, b, 0) <==> a[0] < b[0];
        if k: nat :| SmallerAt(a, b, k) {
          assert k > 0 ==> a[..k][0] == b[..k][0];
        }
      }
    }
  }

  lemma StrTotal(x: string, y: string)
    ensures StrLeq(x, y) || StrLeq(y, x)
  {
  }

  lemma StrAntisymmetric(x: string, y: string)
    requires StrLeq(x, y) && StrLeq(y, x)
    ensures x == y
  {
    if x != "" {
      StrAntisymmetric(x[1..], y[1..]);
      assert x == [x[0]] + x[1..] && y == [y[0]] + y[1..];
    }
  }

  lemma StrTransitive(x: string, y: string, z: string)
    requires StrLeq(x, y) && StrLeq(y, z)
    ensures StrLeq(x, z)
  {
  }
}
