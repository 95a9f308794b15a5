/** Stable sorting by a comparison, and the facts about it that every ordered output in the system rests on. */
module Sorting {

  ghost predicate TotalPreorder<T(!new)>(le: (T, T) -> bool) {
    && (forall x, y :: le(x, y) || le(y, x))
    && (forall x, y, z :: le(x, y) && le(y, z) ==> le(x, z))
  }

  ghost predicate TotalOrder<T(!new)>(le: (T, T) -> bool) {
    TotalPreorder(le) && forall x, y :: le(x, y) && le(y, x) ==> x == y
  }

  /** The comparison tells the elements of s apart: only an element itself ties with it. */
  ghost predicate Separates<T>(le: (T, T) -> bool, s: seq<T>) {
    forall x, y :: x in s && y in s && le(x, y) && le(y, x) ==> x == y
  }

  ghost predicate Sorted<T>(le: (T, T) -> bool, s: seq<T>) {
    forall i, j :: 0 <= i < j < |s| ==> le(s[i], s[j])
  }

  ghost predicate Distinct<T>(s: seq<T>) {
    forall i, j :: 0 <= i < j < |s| ==> s[i] != s[j]
  }

  lemma SortedConcat<T>(le: (T, T) -> bool, a: seq<T>, b: seq<T>)
    requires Sorted(le, a) && Sorted(le, b) && forall x, y :: x in a && y in b ==> le(x, y)
    ensures Sorted(le, a + b)
  {
  }

  function Insert<T>(le: (T, T) -> bool, x: T, s: seq<T>): (r: seq<T>)
    ensures |r| == |s| + 1
  {
    if s == [] then [x]
    else if le(x, s[0]) then [x] + s
    else [s[0]] + Insert(le, x, s[1..])
  }

  /** The stable sort of the runtime library: ties keep the order of s. */
  function Sort<T>(le: (T, T) -> bool, s: seq<T>): (r: seq<T>)
    ensures |r| == |s|
  {
    if s == [] then [] else Insert(le, s[0], Sort(le, s[1..]))
  }

  lemma {:induction false} InsertPermutes<T>(le: (T, T) -> bool, x: T, s: seq<T>)
    ensures multiset(Insert(le, x, s)) == multiset(s) + multiset{x}
  {
    if s != [] && !le(x, s[0]) {
      InsertPermutes(le, x, s[1..]);
      assert s == [s[0]] + s[1..];
    }
  }

  lemma {:induction false} SortPermutes<T>(le: (T, T) -> bool, s: seq<T>)
    ensures multiset(Sort(le, s)) == multiset(s)
    ensures forall x :: x in Sort(le, s) <==> x in s
  {
    if s != [] {
      SortPermutes(le, s[1..]);
      InsertPermutes(le, s[0], Sort(le, s[1..]));
      assert s == [s[0]] + s[1..];
    }
    SameMultisetSameElements(Sort(le, s), s);
  }

  lemma SameMultisetSameElements<T>(a: seq<T>, b: seq<T>)
    requires multiset(a) == multiset(b)
    ensures |a| == |b|
    ensures forall x :: x in a <==> x in b
  {
    assert |multiset(a)| == |a| && |multiset(b)| == |b|;
    forall x ensures x in a <==> x in b {
      assert x in a <==> x in multiset(a);
      assert x in b <==> x in multiset(b);
    }
  }

  lemma {:induction false} InsertSorts<T(!new)>(le: (T, T) -> bool, x: T, s: seq<T>)
    requires TotalPreorder(le) && Sorted(le, s)
    ensures Sorted(le, Insert(le, x, s))
  {
    if s != [] && !le(x, s[0]) {
      InsertSorts(le, x, s[1..]);
      InsertPermutes(le, x, s[1..]);
      var r := Insert(le, x, s[1..]);
      forall y | y in r ensures le(s[0], y) {
        assert y in multiset(r);
        assert y == x || y in s[1..];
      }
    }
  }

  lemma {:induction false} SortSorts<T(!new)>(le: (T, T) -> bool, s: seq<T>)
    requires TotalPreorder(le)
    ensures Sorted(le, Sort(le, s))
  {
    if s != [] {
      SortSorts(le, s[1..]);
      InsertSorts(le, s[0], Sort(le, s[1..]));
    }
  }

  /** A sorted arrangement of separated elements is unique. */
  lemma {:induction false} SortedUnique<T(!new)>(le: (T, T) -> bool, a: seq<T>, b: seq<T>)
    requires TotalPreorder(le)
    requires Sorted(le, a) && Sorted(le, b) && multiset(a) == multiset(b)
    requires Separates(le, a)
    ensures a == b
  {
    hide TotalPreorder, Sorted, Separates;
    SameMultisetSameElements(a, b);
    if a != [] {
      LeastFirst(le, a);
      LeastFirst(le, b);
      assert a[0] == b[0] by { assert a[0] in b && b[0] in a; }
      assert a == [a[0]] + a[1..] && b == [b[0]] + b[1..];
      assert multiset(a[1..]) == multiset(a) - multiset{a[0]};
      assert multiset(b[1..]) == multiset(b) - multiset{b[0]};
      SortedUnique(le, a[1..], b[1..]);
    }
  }

  lemma LeastFirst<T(!new)>(le: (T, T) -> bool, s: seq<T>)
    requires TotalPreorder(le) && Sorted(le, s) && Separates(le, s) && s != []
    ensures forall x :: x in s ==> le(s[0], x)
    ensures forall x :: x in s && le(x, s[0]) ==> x == s[0]
    ensures Sorted(le, s[1..]) && Separates(le, s[1..])
  {
  }

  /** Sorting forgets the order of its input whenever the comparison separates the elements. */
  lemma SortForgetsOrder<T(!new)>(le: (T, T) -> bool, s: seq<T>, t: seq<T>)
    requires TotalPreorder(le) && multiset(s) == multiset(t) && Separates(le, s)
    ensures Sort(le, s) == Sort(le, t)
  {
    SortSorts(le, s);
    SortSorts(le, t);
    SortPermutes(le, s);
    SortPermutes(le, t);
    SortedUnique(le, Sort(le, s), Sort(le, t));
  }

  lemma {:induction false} SortedIsFixed<T(!new)>(le: (T, T) -> bool, s: seq<T>)
    requires TotalPreorder(le) && Sorted(le, s)
    ensures Sort(le, s) == s
  {
    if |s| > 0 {
      SortedIsFixed(le, s[1..]);
      if |s| > 1 { assert le(s[0], s[1]) && s[1..][0] == s[1]; }
    }
  }

  lemma DistinctFromMultiset<T>(a: seq<T>, b: seq<T>)
    requires multiset(a) == multiset(b) && Distinct(a)
    ensures Distinct(b)
  {
    forall i, j | 0 <= i < j < |b| ensures b[i] != b[j] {
      if b[i] == b[j] {
        OccursTwice(b, i, j);
        OccursOnce(a, b[i]);
      }
    }
  }

  lemma OccursTwice<T>(s: seq<T>, i: nat, j: nat)
    requires i < j < |s| && s[i] == s[j]
    ensures multiset(s)[s[i]] >= 2
  {
    assert s == s[..j] + [s[j]] + s[j + 1..];
    assert s[i] in s[..j];
    assert multiset(s) == multiset(s[..j]) + multiset{s[j]} + multiset(s[j + 1..]);
  }

  lemma {:induction false} OccursOnce<T>(s: seq<T>, x: T)
    requires Distinct(s)
    ensures multiset(s)[x] <= 1
  {
    if s != [] {
      OccursOnce(s[1..], x);
      assert s == [s[0]] + s[1..];
      if x == s[0] { assert x !in s[1..]; }
    }
  }

  // ---------------------------------------------------------------- filters and sizes

  function Filter<T>(keep: T -> bool, s: seq<T>): (r: seq<T>)
    ensures forall x :: x in s && keep(x) ==> x in r
    ensures forall x :: x in r ==> x in s && keep(x)
    ensures |r| <= |s|
  {
    if s == [] then []
    else
      var n := |s| - 1;
      assert s == s[..n] + [s[n]];
      if keep(s[n]) then Filter(keep, s[..n]) + [s[n]] else Filter(keep, s[..n])
  }

  lemma {:induction false} FilterDistinct<T>(keep: T -> bool, s: seq<T>)
    requires Distinct(s)
    ensures Distinct(Filter(keep, s))
  {
    if s != [] {
      var n := |s| - 1;
      FilterDistinct(keep, s[..n]);
      assert s[n] !in s[..n];
    }
  }

  lemma {:induction false} FilterMultiset<T>(keep: T -> bool, s: seq<T>, x: T)
    ensures multiset(Filter(keep, s))[x] == if keep(x) then multiset(s)[x] else 0
  {
    if s != [] {
      var n := |s| - 1;
      FilterMultiset(keep, s[..n], x);
      assert s == s[..n] + [s[n]];
    }
  }

  lemma FilterLast<T>(keep: T -> bool, s: seq<T>, x: T)
    ensures Filter(keep, s + [x]) == Filter(keep, s) + if keep(x) then [x] else []
  {
    assert (s + [x])[..|s|] == s;
  }

  lemma {:induction false} FilterConcat<T>(keep: T -> bool, a: seq<T>, b: seq<T>)
    ensures Filter(keep, a + b) == Filter(keep, a) + Filter(keep, b)
    decreases |b|
  {
    hide Filter;
    if b == [] {
      assert a + b == a && Filter(keep, b) == [];
    } else {
      var n := |b| - 1;
      FilterConcat(keep, a, b[..n]);
      FilterLast(keep, a + b[..n], b[n]);
      FilterLast(keep, b[..n], b[n]);
      assert a + b == a + b[..n] + [b[n]] && b == b[..n] + [b[n]];
    }
  }

  /** Any two kept elements tie. */
  ghost predicate Ties<T(!new)>(le: (T, T) -> bool, keep: T -> bool) { forall y, z :: keep(y) && keep(z) ==> le(y, z) }

  lemma {:induction false} InsertStable<T(!new)>(le: (T, T) -> bool, x: T, s: seq<T>, keep: T -> bool)
    requires Ties(le, keep)
    ensures Filter(keep, Insert(le, x, s)) == Filter(keep, [x]) + Filter(keep, s)
  {
    hide Filter, Ties;
    if s != [] && !le(x, s[0]) {
      InsertStable(le, x, s[1..], keep);
      FilterConcat(keep, [s[0]], Insert(le, x, s[1..]));
      FilterConcat(keep, [s[0]], s[1..]);
      assert s == [s[0]] + s[1..];
      KeepsOne(le, keep, x, s[0]);
    } else {
      assert Insert(le, x, s) == [x] + s;
      FilterConcat(keep, [x], s);
    }
  }

  lemma KeepsOne<T(!new)>(le: (T, T) -> bool, keep: T -> bool, x: T, y: T)
    requires Ties(le, keep) && !le(x, y)
    ensures Filter(keep, [x]) == [] || Filter(keep, [y]) == []
  {
    OnlyIfKept(keep, x);
    OnlyIfKept(keep, y);
  }

  lemma OnlyIfKept<T>(keep: T -> bool, x: T)
    ensures Filter(keep, [x]) == if keep(x) then [x] else []
  {
    assert [x][..0] == [];
  }

  /** Elements that tie keep the order in which they stood. */
  lemma {:induction false} SortStable<T(!new)>(le: (T, T) -> bool, s: seq<T>, keep: T -> bool)
    requires Ties(le, keep)
    ensures Filter(keep, Sort(le, s)) == Filter(keep, s)
  {
    hide Filter, Ties;
    if s != [] {
      SortStable(le, s[1..], keep);
      InsertStable(le, s[0], Sort(le, s[1..]), keep);
      FilterConcat(keep, [s[0]], s[1..]);
      assert s == [s[0]] + s[1..];
    }
  }

  lemma SomeMember<T>(s: seq<T>) returns (x: T)
    requires s != []
    ensures x in s
  {
    x := s[0];
  }

  /** Of two lists of distinct elements, one contained in the other is no longer. */
  lemma {:induction false} ContainedNotLonger<T>(s: seq<T>, t: seq<T>)
    requires Distinct(s) && forall x :: x in s ==> x in t
    ensures |s| <= |t|
  {
    if s != [] {
      assert s[0] in s && s[0] in t;
      var i :| 0 <= i < |t| && t[i] == s[0];
      var t' := t[..i] + t[i + 1..];
      assert t == t[..i] + [t[i]] + t[i + 1..];
      forall x | x in s[1..] ensures x in t' {
        assert x in s && x in t && x != s[0];
      }
      ContainedNotLonger(s[1..], t');
    }
  }
}
