/** Facts about sequences, multisets and integer ranges that the other modules share. */
module Collections {

  datatype Option<+T> = None | Some(value: T)

  function Sum<T>(s: seq<T>, f: T -> int): int {
    if s == [] then 0 else f(s[0]) + Sum(s[1..], f)
  }

  lemma {:induction false} SumAppend<T>(a: seq<T>, b: seq<T>, f: T -> int)
    ensures Sum(a + b, f) == Sum(a, f) + Sum(b, f)
  {
    if a == [] {
      assert a + b == b;
    } else {
      assert (a + b)[1..] == a[1..] + b;
      SumAppend(a[1..], b, f);
    }
  }

  /** Extending a prefix by one element adds that element's weight. */
  lemma SumPrefix<T>(s: seq<T>, n: nat, f: T -> int)
    requires n < |s|
    ensures Sum(s[..n + 1], f) == Sum(s[..n], f) + f(s[n])
  {
    assert s[..n + 1] == s[..n] + [s[n]];
    SumAppend(s[..n], [s[n]], f);
  }

  lemma {:induction false} SumNonNegative<T>(s: seq<T>, f: T -> int)
    requires forall x | x in s :: f(x) >= 0
    ensures Sum(s, f) >= 0
  {
    if s != [] { SumNonNegative(s[1..], f); }
  }

  function Without<T>(s: seq<T>, i: nat): seq<T>
    requires i < |s|
  {
    s[..i] + s[i + 1..]
  }

  lemma WithoutOne<T>(s: seq<T>, i: nat)
    requires i < |s|
    ensures multiset(Without(s, i)) == multiset(s) - multiset{s[i]}
  {
    assert s == s[..i] + ([s[i]] + s[i + 1..]);
  }

  lemma SumWithout<T>(s: seq<T>, i: nat, f: T -> int)
    requires i < |s|
    ensures Sum(s, f) == f(s[i]) + Sum(Without(s, i), f)
  {
    assert s == s[..i] + s[i..];
    assert s[i..][1..] == s[i + 1..];
    SumAppend(s[..i], s[i..], f);
    SumAppend(s[..i], s[i + 1..], f);
  }

  /** Reordering does not change a sum. */
  lemma {:induction false} SumPermutation<T>(a: seq<T>, b: seq<T>, f: T -> int)
    requires multiset(a) == multiset(b)
    ensures Sum(a, f) == Sum(b, f)
  {
    if a == [] {
      assert |multiset(b)| == 0;
    } else {
      assert a[0] in multiset(b);
      var i :| 0 <= i < |b| && b[i] == a[0];
      WithoutOne(b, i);
      WithoutOne(a, 0);
      assert Without(a, 0) == a[1..];
      SumPermutation(a[1..], Without(b, i), f);
      SumWithout(b, i, f);
    }
  }

  /** Sequences whose elements pair up with equal weights have equal sums. */
  lemma {:induction false} SumPairwise<T, U>(s: seq<T>, t: seq<U>, f: T -> int, g: U -> int)
    requires |s| == |t|
    requires forall i | 0 <= i < |s| :: f(s[i]) == g(t[i])
    ensures Sum(s, f) == Sum(t, g)
  {
    if s != [] { SumPairwise(s[1..], t[1..], f, g); }
  }

  /** The positions below n of the elements with weight one. */
  function Marked<T>(items: seq<T>, f: T -> int, n: nat): set<int>
    requires n <= |items|
  {
    set i | 0 <= i < n && f(items[i]) == 1
  }

  lemma MarkedGrows<T>(items: seq<T>, f: T -> int, n: nat)
    requires n < |items|
    ensures |Marked(items, f, n + 1)| == |Marked(items, f, n)| + if f(items[n]) == 1 then 1 else 0
  {
    var before := Marked(items, f, n);
    assert Marked(items, f, n + 1) == if f(items[n]) == 1 then before + {n} else before;
  }

  lemma {:induction false} SumIsCount<T>(items: seq<T>, f: T -> int, n: nat)
    requires n <= |items| && forall i | 0 <= i < |items| :: f(items[i]) == 0 || f(items[i]) == 1
    ensures Sum(items[..n], f) == |Marked(items, f, n)|
  {
    if n > 0 {
      SumIsCount(items, f, n - 1);
      SumPrefix(items, n - 1, f);
      MarkedGrows(items, f, n - 1);
    }
  }

  /** A sum of zeros and ones is the number of positions that are meant. */
  lemma CountOf<T>(items: seq<T>, f: T -> int, meant: set<int>)
    requires forall i | 0 <= i < |items| :: f(items[i]) == if i in meant then 1 else 0
    requires forall i | i in meant :: 0 <= i < |items|
    ensures Sum(items, f) == |meant|
  {
    SumIsCount(items, f, |items|);
    assert items[..|items|] == items;
    assert Marked(items, f, |items|) == meant;
  }

  predicate NoDuplicates<T(==)>(s: seq<T>) {
    forall i, j | 0 <= i < j < |s| :: s[i] != s[j]
  }

  lemma {:induction false} NoDuplicatesMultiset<T>(s: seq<T>, x: T)
    requires NoDuplicates(s)
    ensures multiset(s)[x] == if x in s then 1 else 0
  {
    if s != [] {
      assert s == [s[0]] + s[1..];
      NoDuplicatesMultiset(s[1..], x);
    }
  }

  /** Two duplicate-free sequences with the same members are permutations of each other. */
  lemma SameMembersPermutation<T>(a: seq<T>, b: seq<T>)
    requires NoDuplicates(a) && NoDuplicates(b)
    requires forall x :: x in a <==> x in b
    ensures multiset(a) == multiset(b)
  {
    forall x ensures multiset(a)[x] == multiset(b)[x] {
      NoDuplicatesMultiset(a, x);
      NoDuplicatesMultiset(b, x);
    }
  }

  function Map<T, U>(f: T -> U, s: seq<T>): (r: seq<U>)
    ensures |r| == |s|
    ensures forall i | 0 <= i < |s| :: r[i] == f(s[i])
  {
    seq(|s|, i requires 0 <= i < |s| => f(s[i]))
  }

  function Concat<T>(ss: seq<seq<T>>): seq<T> {
    if ss == [] then [] else ss[0] + Concat(ss[1..])
  }

  lemma {:induction false} ConcatMember<T>(ss: seq<seq<T>>, x: T)
    ensures x in Concat(ss) <==> exists i :: 0 <= i < |ss| && x in ss[i]
  {
    if ss != [] {
      ConcatMember(ss[1..], x);
      if x in Concat(ss[1..]) {
        var i :| 0 <= i < |ss[1..]| && x in ss[1..][i];
        assert x in ss[i + 1];
      }
      if i :| 0 < i < |ss| && x in ss[i] {
        assert x in ss[1..][i - 1];
      }
    }
  }

  /** The sum over a concatenation, part by part; `total` may report each part's sum in its own way. */
  lemma {:induction false} SumConcat<T, U>(parts: seq<seq<T>>, f: T -> int, reports: seq<U>, total: U -> int)
    requires |parts| == |reports|
    requires forall i | 0 <= i < |parts| :: Sum(parts[i], f) == total(reports[i])
    ensures Sum(Concat(parts), f) == Sum(reports, total)
  {
    if parts != [] {
      SumAppend(parts[0], Concat(parts[1..]), f);
      SumConcat(parts[1..], f, reports[1..], total);
    }
  }

  /** Joining duplicate-free, pairwise disjoint sequences gives a duplicate-free one. */
  lemma {:induction false} NoDuplicatesConcat<T>(ss: seq<seq<T>>)
    requires forall i | 0 <= i < |ss| :: NoDuplicates(ss[i])
    requires forall i, j, x | 0 <= i < j < |ss| && x in ss[i] :: x !in ss[j]
    ensures NoDuplicates(Concat(ss))
  {
    if ss != [] {
      NoDuplicatesConcat(ss[1..]);
      var first, rest := ss[0], Concat(ss[1..]);
      forall x | x in first ensures x !in rest {
        ConcatMember(ss[1..], x);
        assert forall j | 0 <= j < |ss[1..]| :: x !in ss[1..][j];
      }
      NoDuplicatesAppend(first, rest);
    }
  }

  lemma NoDuplicatesAppend<T>(a: seq<T>, b: seq<T>)
    requires NoDuplicates(a) && NoDuplicates(b)
    requires forall x | x in a :: x !in b
    ensures NoDuplicates(a + b)
  {
    forall i, j | 0 <= i < j < |a + b| ensures (a + b)[i] != (a + b)[j] {
      if i < |a| <= j {
        assert (a + b)[i] in a && (a + b)[j] in b;
      }
    }
  }

  function Range(n: nat): (r: set<int>)
    ensures forall i :: i in r <==> 0 <= i < n
  {
    if n == 0 then {} else Range(n - 1) + {n - 1}
  }

  lemma {:induction false} RangeSize(n: nat)
    ensures |Range(n)| == n
  {
    if n > 0 {
      RangeSize(n - 1);
    }
  }

  lemma {:induction false} SubsetSize<T>(a: set<T>, b: set<T>)
    requires a <= b
    ensures |a| <= |b|
    ensures |a| == |b| ==> a == b
  {
    assert b == a + (b - a);
    assert |b| == |a| + |b - a|;
    if |a| == |b| { assert b - a == {}; }
  }

  /** Pigeonhole: n distinct indices inside [0, n) are all of them. */
  lemma FullRange(s: set<int>, n: nat)
    requires s <= Range(n)
    ensures |s| <= n
    ensures |s| == n <==> s == Range(n)
  {
    RangeSize(n);
    SubsetSize(s, Range(n));
  }

  ghost function Pick<T>(s: set<T>): (x: T)
    requires s != {}
    ensures x in s
  {
    var x :| x in s;
    x
  }

  lemma {:induction false} LeastExists(s: set<int>)
    requires s != {}
    ensures exists m :: m in s && forall x | x in s :: m <= x
  {
    var y := Pick(s);
    var rest := s - {y};
    if rest != {} {
      LeastExists(rest);
      var m :| m in rest && forall x | x in rest :: m <= x;
      var least := if y < m then y else m;
      forall x | x in s ensures least <= x {
        assert x == y || x in rest;
      }
    } else {
      assert s == {y};
    }
  }

  function Least(s: set<int>): (m: int)
    requires s != {}
    ensures m in s
    ensures forall x | x in s :: m <= x
  {
    LeastExists(s);
    var m :| m in s && forall x | x in s :: m <= x;
    m
  }
}
