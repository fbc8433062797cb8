/** `slices.SortFunc`: some rearrangement of the input that the comparison allows.
    It is not stable in Go, so callers may use nothing but its contract. */
module Sorting {

  ghost predicate Transitive<T(!new)>(less: (T, T) -> bool) {
    forall x, y, z :: less(x, y) && less(y, z) ==> less(x, z)
  }

  predicate SortedBy<T>(s: seq<T>, less: (T, T) -> bool) {
    forall i, j :: 0 <= i < j < |s| ==> !less(s[j], s[i])
  }

  /** `r` is `s` with its places exchanged: place `i` holds what was at `perm[i]`. */
  ghost predicate Rearranges<T>(perm: seq<nat>, r: seq<T>, s: seq<T>) {
    && |perm| == |r| == |s|
    && (forall i :: 0 <= i < |perm| ==> perm[i] < |s| && r[i] == s[perm[i]])
    && (forall i, j :: 0 <= i < j < |perm| ==> perm[i] != perm[j])
    && (forall k :: 0 <= k < |s| ==> k in perm)
  }

  lemma RearrangedMembers<T>(perm: seq<nat>, r: seq<T>, s: seq<T>)
    requires Rearranges(perm, r, s)
    ensures forall x :: x in r <==> x in s
  {
    forall x | x in s ensures x in r {
      var k :| 0 <= k < |s| && s[k] == x;
      assert k in perm;
      var i :| 0 <= i < |perm| && perm[i] == k;
      assert r[i] == x;
    }
  }

  /** `x` may go in front of `r[at]` and behind everything before it. */
  ghost predicate Fits<T>(x: T, r: seq<T>, less: (T, T) -> bool, at: nat) {
    at <= |r| && (forall k :: 0 <= k < at ==> !less(x, r[k])) && (at < |r| ==> less(x, r[at]))
  }

  lemma FittedIsSorted<T(!new)>(x: T, r: seq<T>, less: (T, T) -> bool, at: nat)
    requires SortedBy(r, less) && Transitive(less) && (forall y :: !less(y, y)) && Fits(x, r, less, at)
    ensures SortedBy(r[..at] + [x] + r[at..], less)
  {
    var t := r[..at] + [x] + r[at..];
    forall i, j | 0 <= i < j < |t| ensures !less(t[j], t[i]) {
      assert j > at ==> t[j] == r[j - 1];
    }
  }

  method Place<T(!new)>(x: T, r: seq<T>, less: (T, T) -> bool) returns (at: nat)
    requires SortedBy(r, less) && Transitive(less) && forall y :: !less(y, y)
    ensures at <= |r| && SortedBy(r[..at] + [x] + r[at..], less)
  {
    at := 0;
    while at < |r| && !less(x, r[at])
      invariant at <= |r|
      invariant forall k :: 0 <= k < at ==> !less(x, r[k])
    {
      at := at + 1;
    }
    FittedIsSorted(x, r, less, at);
  }

  /** Every place is still taken once. */
  lemma InsertedPlaces(perm: seq<nat>, i: nat, at: nat)
    requires |perm| == i && at <= i && (forall k :: 0 <= k < i ==> perm[k] < i)
    requires (forall j, k :: 0 <= j < k < i ==> perm[j] != perm[k]) && forall k :: 0 <= k < i ==> k in perm
    ensures var next := perm[..at] + [i] + perm[at..];
      && (forall j, k :: 0 <= j < k < |next| ==> next[j] != next[k])
      && (forall k :: 0 <= k < i + 1 ==> k in next)
  {
    var next := perm[..at] + [i] + perm[at..];
    assert forall j :: 0 <= j < |next| ==> next[j] == if j < at then perm[j] else if j == at then i else perm[j - 1];
    forall k | 0 <= k < i ensures k in next {
      assert k in perm;
      var j :| 0 <= j < |perm| && perm[j] == k;
      assert next[if j < at then j else j + 1] == k;
    }
    assert next[at] == i;
  }

  lemma InsertedRearranges<T>(perm: seq<nat>, r: seq<T>, s: seq<T>, i: nat, at: nat)
    requires i < |s| && Rearranges(perm, r, s[..i]) && at <= |r|
    ensures at <= |perm| && Rearranges(perm[..at] + [i] + perm[at..], r[..at] + [s[i]] + r[at..], s[..i + 1])
  {
    InsertedPlaces(perm, i, at);
    var next, more := perm[..at] + [i] + perm[at..], r[..at] + [s[i]] + r[at..];
    forall j | 0 <= j < |next| ensures next[j] < i + 1 && more[j] == s[..i + 1][next[j]] {
      if j < at {
        assert r[j] == s[..i][perm[j]];
      } else if j > at {
        assert r[j - 1] == s[..i][perm[j - 1]];
      }
    }
  }

  lemma InsertedMultiset<T>(r: seq<T>, x: T, at: nat)
    requires at <= |r|
    ensures multiset(r[..at] + [x] + r[at..]) == multiset(r) + multiset{x}
  {
    assert r == r[..at] + r[at..];
  }

  method SortFunc<T(!new)>(s: seq<T>, less: (T, T) -> bool) returns (r: seq<T>, ghost perm: seq<nat>)
    requires Transitive(less) && forall y :: !less(y, y)
    ensures SortedBy(r, less) && Rearranges(perm, r, s) && multiset(r) == multiset(s)
  {
    hide Rearranges, SortedBy;
    r, perm := [], [];
    NothingSorted(s, less);
    for i := 0 to |s|
      invariant SortedBy(r, less) && Rearranges(perm, r, s[..i]) && multiset(r) == multiset(s[..i])
    {
      var at := Place(s[i], r, less);
      InsertedRearranges(perm, r, s, i, at);
      InsertedMultiset(r, s[i], at);
      assert s[..i + 1] == s[..i] + [s[i]];
      r, perm := r[..at] + [s[i]] + r[at..], perm[..at] + [i] + perm[at..];
    }
    assert s[..|s|] == s;
  }

  lemma NothingSorted<T>(s: seq<T>, less: (T, T) -> bool)
    ensures SortedBy([], less) && Rearranges([], [], s[..0])
  {
  }

  lemma Cancel<T>(x: T, m: multiset<T>, n: multiset<T>)
    requires multiset{x} + m == multiset{x} + n
    ensures m == n
  {
    assert m == (multiset{x} + m) - multiset{x};
    assert n == (multiset{x} + n) - multiset{x};
  }

  ghost predicate Ascending<T(!new)>(s: seq<T>, less: (T, T) -> bool) {
    forall i, j :: 0 <= i < j < |s| ==> less(s[i], s[j])
  }

  ghost predicate Strict<T(!new)>(less: (T, T) -> bool) {
    (forall x :: !less(x, x)) && (forall x, y, z :: less(x, y) && less(y, z) ==> less(x, z))
  }

  /** A strictly ascending sequence is determined by its members. */
  lemma {:induction false} AscendingUnique<T(!new)>(a: seq<T>, b: seq<T>, less: (T, T) -> bool)
    requires Strict(less) && Ascending(a, less) && Ascending(b, less) && forall x :: x in a <==> x in b
    ensures a == b
  {
    assert b != [] ==> b[0] in a;
    if a != [] {
      assert a[0] in b;
      assert b[0] in a;
      var i :| 0 <= i < |b| && b[i] == a[0];
      var j :| 0 <= j < |a| && a[j] == b[0];
      assert a[0] == b[0];
      forall x ensures x in a[1..] <==> x in b[1..] {
        if x in a[1..] {
          assert x in b;
        }
        if x in b[1..] {
          assert x in a;
        }
      }
      AscendingUnique(a[1..], b[1..], less);
      assert a == [a[0]] + a[1..] && b == [b[0]] + b[1..];
    }
  }

  /** Every sequence has a sorted arrangement. */
  lemma {:induction false} SomeSorted<T(!new)>(s: seq<T>, less: (T, T) -> bool) returns (r: seq<T>)
    requires Transitive(less) && forall y :: !less(y, y)
    ensures SortedBy(r, less) && multiset(r) == multiset(s)
  {
    if s == [] {
      r := [];
    } else {
      var n := |s| - 1;
      var rest := SomeSorted(s[..n], less);
      var at := SomeFit(s[n], rest, less, 0);
      FittedIsSorted(s[n], rest, less, at);
      InsertedMultiset(rest, s[n], at);
      assert s == s[..n] + [s[n]];
      r := rest[..at] + [s[n]] + rest[at..];
    }
  }

  lemma {:induction false} SomeFit<T>(x: T, r: seq<T>, less: (T, T) -> bool, from: nat) returns (at: nat)
    requires from <= |r| && forall k :: 0 <= k < from ==> !less(x, r[k])
    ensures Fits(x, r, less, at)
    decreases |r| - from
  {
    if from == |r| || less(x, r[from]) {
      at := from;
    } else {
      at := SomeFit(x, r, less, from + 1);
    }
  }
}
