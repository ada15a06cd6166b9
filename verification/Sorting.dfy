/** `lsort` of Tcl: a stable sort by the text of the elements. */
module Sorting {
  import opened Options
  import opened Bytes

  type Text = seq<byte>

  /** Lexicographic order on texts. */
  predicate Le(a: Text, b: Text) {
    |a| == 0 || (|b| > 0 && (a[0] < b[0] || (a[0] == b[0] && Le(a[1..], b[1..]))))
  }

  lemma {:induction false} LeTotal(a: Text, b: Text)
    ensures Le(a, b) || Le(b, a)
  {
    if |a| > 0 && |b| > 0 { LeTotal(a[1..], b[1..]); }
  }

  lemma {:induction false} LeTransitive(a: Text, b: Text, c: Text)
    requires Le(a, b) && Le(b, c)
    ensures Le(a, c)
  {
    if |a| > 0 && a[0] == b[0] && b[0] == c[0] { LeTransitive(a[1..], b[1..], c[1..]); }
  }

  lemma {:induction false} LeAntisymmetric(a: Text, b: Text)
    requires Le(a, b) && Le(b, a)
    ensures a == b
  {
    if |a| > 0 {
      LeAntisymmetric(a[1..], b[1..]);
      assert a == [a[0]] + a[1..] && b == [b[0]] + b[1..];
    }
  }

  /** What the order is: of two texts the one goes first that is a part of the other from its start,
      or has the smaller byte where they first differ. */
  lemma {:induction false} LeIs(a: Text, b: Text)
    ensures Le(a, b) <==>
      || (|a| <= |b| && forall i :: 0 <= i < |a| ==> a[i] == b[i])
      || (exists k :: 0 <= k < |a| && k < |b| && a[k] < b[k] && forall i :: 0 <= i < k ==> a[i] == b[i])
  {
    if |a| > 0 && |b| > 0 && a[0] == b[0] {
      var a', b' := a[1..], b[1..];
      LeIs(a', b');
      assert forall i :: 0 < i < |a| ==> a[i] == a'[i-1];
      assert forall i :: 0 < i < |b| ==> b[i] == b'[i-1];
      if k :| 0 <= k < |a'| && k < |b'| && a'[k] < b'[k] && forall i :: 0 <= i < k ==> a'[i] == b'[i] {
        assert a[k + 1] < b[k + 1];
        assert forall i :: 0 <= i < k + 1 ==> a[i] == b[i];
      }
      if k :| 0 <= k < |a| && k < |b| && a[k] < b[k] && forall i :: 0 <= i < k ==> a[i] == b[i] {
        assert a'[k-1] < b'[k-1];
        assert forall i :: 0 <= i < k - 1 ==> a'[i] == a[i + 1] && b'[i] == b[i + 1];
      }
    }
  }

  // ---------------------------------------------------------------- the sort

  function Insert<T>(key: T -> Text, x: T, s: seq<T>): seq<T> {
    if |s| == 0 || Le(key(x), key(s[0])) then [x] + s
    else [s[0]] + Insert(key, x, s[1..])
  }

  function Sort<T>(key: T -> Text, s: seq<T>): seq<T> {
    if |s| == 0 then [] else Insert(key, s[0], Sort(key, s[1..]))
  }

  predicate IsSorted<T>(key: T -> Text, s: seq<T>) {
    forall i :: 0 < i < |s| ==> Le(key(s[i-1]), key(s[i]))
  }

  lemma {:induction false} InsertSorted<T>(key: T -> Text, x: T, s: seq<T>)
    requires IsSorted(key, s)
    ensures IsSorted(key, Insert(key, x, s))
    ensures |s| > 0 ==> Insert(key, x, s)[0] == s[0] || Insert(key, x, s)[0] == x
  {
    if |s| > 0 && !Le(key(x), key(s[0])) {
      LeTotal(key(x), key(s[0]));
      assert forall i :: 0 < i < |s[1..]| ==> s[1..][i] == s[i+1] && s[1..][i-1] == s[i];
      InsertSorted(key, x, s[1..]);
      var r := Insert(key, x, s[1..]);
      var all := [s[0]] + r;
      forall i | 0 < i < |all| ensures Le(key(all[i-1]), key(all[i])) {
        if i > 1 { assert all[i-1] == r[i-2] && all[i] == r[i-1]; }
      }
    }
  }

  lemma {:induction false} SortSorted<T>(key: T -> Text, s: seq<T>)
    ensures IsSorted(key, Sort(key, s))
  {
    if |s| > 0 {
      SortSorted(key, s[1..]);
      InsertSorted(key, s[0], Sort(key, s[1..]));
    }
  }

  lemma {:induction false} InsertPermutes<T>(key: T -> Text, x: T, s: seq<T>)
    ensures multiset(Insert(key, x, s)) == multiset{x} + multiset(s)
  {
    if |s| > 0 && !Le(key(x), key(s[0])) {
      InsertPermutes(key, x, s[1..]);
      assert s == [s[0]] + s[1..];
    }
  }

  lemma {:induction false} SortPermutes<T>(key: T -> Text, s: seq<T>)
    ensures multiset(Sort(key, s)) == multiset(s)
    ensures |Sort(key, s)| == |s|
  {
    if |s| > 0 {
      SortPermutes(key, s[1..]);
      InsertPermutes(key, s[0], Sort(key, s[1..]));
      assert s == [s[0]] + s[1..];
    }
    assert |multiset(Sort(key, s))| == |Sort(key, s)| && |multiset(s)| == |s|;
  }

  lemma {:induction false} SortMember<T>(key: T -> Text, s: seq<T>, x: T)
    ensures x in Sort(key, s) <==> x in s
  {
    SortPermutes(key, s);
    assert x in Sort(key, s) <==> x in multiset(Sort(key, s));
    assert x in s <==> x in multiset(s);
  }

  /** `q` lists the numbers below `n` in some order. */
  predicate IsOrder(q: seq<nat>, n: nat) {
    |q| == n
    && (forall k :: 0 <= k < n ==> q[k] < n)
    && (forall j, k :: 0 <= j < k < n ==> q[j] != q[k])
    && forall j :: 0 <= j < n ==> j in q
  }

  /** `r` is `s` in the order of the keys, `q` saying what comes from where; those with the same key
      keep their order. */
  ghost predicate SortedStably<T>(key: T -> Text, s: seq<T>, r: seq<T>, q: seq<nat>) {
    && |r| == |s| && IsOrder(q, |s|)
    && (forall k :: 0 <= k < |s| ==> r[k] == s[q[k]])
    && (forall i, j :: 0 <= i < j < |s| ==> Le(key(r[i]), key(r[j])) && (key(r[i]) == key(r[j]) ==> q[i] < q[j]))
  }

  /** Where an element goes: before the first that is not below it. */
  lemma {:induction false} InsertAt<T>(key: T -> Text, x: T, s: seq<T>) returns (p: nat)
    requires IsSorted(key, s)
    ensures p <= |s| && Insert(key, x, s) == s[..p] + [x] + s[p..]
    ensures forall i :: 0 <= i < p ==> Le(key(s[i]), key(x)) && key(s[i]) != key(x)
    ensures forall i :: p <= i < |s| ==> Le(key(x), key(s[i]))
  {
    if |s| == 0 || Le(key(x), key(s[0])) {
      p := 0;
      forall i | 0 <= i < |s| ensures Le(key(x), key(s[i])) {
        HeadIsLeast(key, s, i);
        LeTransitive(key(x), key(s[0]), key(s[i]));
      }
    } else {
      var t := s[1..];
      LeTotal(key(x), key(s[0]));
      TailSorted(key, s);
      p := InsertAt(key, x, t);
      assert [s[0]] + (t[..p] + [x] + t[p..]) == s[..p + 1] + [x] + s[p + 1..];
      assert forall i :: 0 < i < |s| ==> s[i] == t[i-1];
      p := p + 1;
    }
  }

  lemma {:induction false} SortIsStable<T>(key: T -> Text, s: seq<T>) returns (q: seq<nat>)
    ensures SortedStably(key, s, Sort(key, s), q)
  {
    if |s| == 0 {
      q := [];
    } else {
      var t, rest := s[1..], Sort(key, s[1..]);
      var q' := SortIsStable(key, t);
      SortSorted(key, t);
      var p := InsertAt(key, s[0], rest);
      hide Sort, Insert, IsSorted, Le;
      q := OrderWith(q', p);
      StableWith(key, s, rest, q', p);
    }
  }

  /** All numbers one more, and zero at place `p`. */
  function OrderWith(q: seq<nat>, p: nat): (r: seq<nat>)
    requires p <= |q|
    ensures |r| == |q| + 1
    ensures forall k :: 0 <= k < |r| ==> r[k] == if k < p then q[k] + 1 else if k == p then 0 else q[k-1] + 1
  {
    seq(|q| + 1, k requires 0 <= k <= |q| => if k < p then q[k] + 1 else if k == p then 0 else q[k-1] + 1)
  }

  lemma {:induction false} OrderWithIsOrder(q: seq<nat>, p: nat)
    requires IsOrder(q, |q|) && p <= |q|
    ensures IsOrder(OrderWith(q, p), |q| + 1)
  {
    var r := OrderWith(q, p);
    forall j | 0 <= j < |q| + 1 ensures j in r {
      if j == 0 {
        assert r[p] == 0;
      } else {
        var i: nat := j - 1;
        assert i in q;
        var k :| 0 <= k < |q| && q[k] == i;
        assert r[if k < p then k else k + 1] == j;
      }
    }
  }

  lemma {:induction false} StableWith<T>(key: T -> Text, s: seq<T>, rest: seq<T>, q: seq<nat>, p: nat)
    requires |s| > 0 && SortedStably(key, s[1..], rest, q) && p <= |rest|
    requires forall i :: 0 <= i < p ==> Le(key(rest[i]), key(s[0])) && key(rest[i]) != key(s[0])
    requires forall i :: p <= i < |rest| ==> Le(key(s[0]), key(rest[i]))
    ensures SortedStably(key, s, rest[..p] + [s[0]] + rest[p..], OrderWith(q, p))
  {
    hide *;
    StablyInRange(key, s[1..], rest, q);
    OrderWithIsOrder(q, p);
    var r, q' := rest[..p] + [s[0]] + rest[p..], OrderWith(q, p);
    InRange(q', |s|);
    Placed(s, rest, q, p);
    StaysSorted(key, s, rest, r, q, p);
    IsStablySorted(key, s, r, q');
  }

  lemma StablyInRange<T>(key: T -> Text, s: seq<T>, r: seq<T>, q: seq<nat>)
    requires SortedStably(key, s, r, q)
    ensures |r| == |s| == |q| && IsOrder(q, |q|) && forall k :: 0 <= k < |s| ==> q[k] < |s| && r[k] == s[q[k]]
    ensures forall i, j :: 0 <= i < j < |s| ==> Le(key(r[i]), key(r[j])) && (key(r[i]) == key(r[j]) ==> q[i] < q[j])
  {
  }

  lemma IsStablySorted<T>(key: T -> Text, s: seq<T>, r: seq<T>, q: seq<nat>)
    requires |r| == |s| && IsOrder(q, |s|) && |q| == |s| && forall k :: 0 <= k < |s| ==> q[k] < |s|
    requires forall k :: 0 <= k < |s| ==> r[k] == s[q[k]]
    requires forall i, j :: 0 <= i < j < |s| ==> Le(key(r[i]), key(r[j])) && (key(r[i]) == key(r[j]) ==> q[i] < q[j])
    ensures SortedStably(key, s, r, q)
  {
  }

  lemma {:induction false} Placed<T>(s: seq<T>, rest: seq<T>, q: seq<nat>, p: nat)
    requires |s| > 0 && |rest| == |q| == |s| - 1 && p <= |rest|
    requires forall k :: 0 <= k < |rest| ==> q[k] < |rest| && rest[k] == s[1..][q[k]]
    ensures var r, q' := rest[..p] + [s[0]] + rest[p..], OrderWith(q, p);
      |r| == |s| && forall k :: 0 <= k < |s| ==> q'[k] < |s| && r[k] == s[q'[k]]
  {
  }

  lemma {:induction false} StaysSorted<T>(key: T -> Text, s: seq<T>, rest: seq<T>, r: seq<T>, q: seq<nat>, p: nat)
    requires |s| > 0 && |rest| == |q| == |s| - 1 && p <= |rest| && r == rest[..p] + [s[0]] + rest[p..]
    requires forall i, j :: 0 <= i < j < |rest| ==>
      Le(key(rest[i]), key(rest[j])) && (key(rest[i]) == key(rest[j]) ==> q[i] < q[j])
    requires forall i :: 0 <= i < p ==> Le(key(rest[i]), key(s[0])) && key(rest[i]) != key(s[0])
    requires forall i :: p <= i < |rest| ==> Le(key(s[0]), key(rest[i]))
    ensures var q' := OrderWith(q, p);
      forall i, j :: 0 <= i < j < |s| ==> Le(key(r[i]), key(r[j])) && (key(r[i]) == key(r[j]) ==> q'[i] < q'[j])
  {
    hide Le;
    assert forall k :: 0 <= k < |r| ==> r[k] == if k < p then rest[k] else if k == p then s[0] else rest[k-1];
  }

  lemma InRange(q: seq<nat>, n: nat)
    requires IsOrder(q, n)
    ensures |q| == n && forall k :: 0 <= k < n ==> q[k] < n
  {
  }

  /** The head of a sorted sequence is below all its elements. */
  lemma {:induction false} HeadIsLeast<T>(key: T -> Text, s: seq<T>, i: nat)
    requires IsSorted(key, s) && i < |s|
    ensures Le(key(s[0]), key(s[i]))
  {
    if i == 0 {
      LeTotal(key(s[0]), key(s[0]));
    } else {
      HeadIsLeast(key, s, i - 1);
      LeTransitive(key(s[0]), key(s[i-1]), key(s[i]));
    }
  }

  /** Two sorted sequences of the same elements are equal when the key tells elements apart. */
  lemma {:induction false} SortedUnique<T(!new)>(key: T -> Text, a: seq<T>, b: seq<T>)
    requires IsSorted(key, a) && IsSorted(key, b) && multiset(a) == multiset(b)
    requires forall x, y {:trigger key(x), key(y)} :: x in a && y in a && key(x) == key(y) ==> x == y
    ensures a == b
  {
    hide *;
    SameLength(a, b);
    if |a| > 0 {
      SameMembers(a, b);
      SameHead(key, a, b);
      TailMultiset(a);
      TailMultiset(b);
      TailSorted(key, a);
      TailSorted(key, b);
      SortedUnique(key, a[1..], b[1..]);
    }
  }

  lemma {:induction false} SameLength<T>(a: seq<T>, b: seq<T>)
    requires multiset(a) == multiset(b)
    ensures |a| == |b|
  {
    assert |multiset(a)| == |a| && |multiset(b)| == |b|;
  }

  lemma {:induction false} SameMembers<T>(a: seq<T>, b: seq<T>)
    requires multiset(a) == multiset(b)
    ensures forall i :: 0 <= i < |a| ==> a[i] in b
    ensures forall i :: 0 <= i < |b| ==> b[i] in a
  {
    forall i | 0 <= i < |a| ensures a[i] in b { assert a[i] in multiset(a); }
    forall i | 0 <= i < |b| ensures b[i] in a { assert b[i] in multiset(b); }
  }

  lemma {:induction false} SameHead<T(!new)>(key: T -> Text, a: seq<T>, b: seq<T>)
    requires IsSorted(key, a) && IsSorted(key, b) && |a| > 0 && |b| > 0 && a[0] in b && b[0] in a
    requires forall x, y {:trigger key(x), key(y)} :: x in a && y in a && key(x) == key(y) ==> x == y
    ensures a[0] == b[0]
  {
    hide *;
    var i :| 0 <= i < |b| && b[i] == a[0];
    var j :| 0 <= j < |a| && a[j] == b[0];
    HeadIsLeast(key, b, i);
    HeadIsLeast(key, a, j);
    LeAntisymmetric(key(a[0]), key(b[0]));
  }

  lemma TailMultiset<T>(s: seq<T>)
    requires |s| > 0
    ensures s == [s[0]] + s[1..]
    ensures multiset(s[1..]) == multiset(s) - multiset{s[0]}
  {
  }

  lemma TailSorted<T>(key: T -> Text, s: seq<T>)
    requires |s| > 0 && IsSorted(key, s)
    ensures IsSorted(key, s[1..])
  {
  }
}
