/** Byte strings: the order Go's string comparison gives them, the sorted
    duplicate-free slices StableStrings makes, decimal numerals, and joining with
    a separator byte that the fields do not contain. */
module Text {
  import opened Sorting

  type Byte = b: int | 0 <= b < 256

  type Str = seq<Byte>

  /** Bytewise lexicographic order: what `cmp.Compare(a, b) < 0` decides. */
  predicate Less(a: Str, b: Str) {
    b != [] && (a == [] || a[0] < b[0] || (a[0] == b[0] && Less(a[1..], b[1..])))
  }

  lemma {:induction false} LessIrreflexive(a: Str)
    ensures !Less(a, a)
  {
    if a != [] {
      LessIrreflexive(a[1..]);
    }
  }

  lemma {:induction false} LessTransitive(a: Str, b: Str, c: Str)
    requires Less(a, b) && Less(b, c)
    ensures Less(a, c)
  {
    if a != [] && a[0] == b[0] && b[0] == c[0] {
      LessTransitive(a[1..], b[1..], c[1..]);
    }
  }

  lemma {:induction false} LessTotal(a: Str, b: Str)
    ensures a == b || Less(a, b) || Less(b, a)
  {
    if a == [] || b == [] {
    } else if a[0] == b[0] {
      LessTotal(a[1..], b[1..]);
      if a[1..] == b[1..] {
        assert a == [a[0]] + a[1..] && b == [b[0]] + b[1..];
      }
    }
  }

  /** The first byte that differs decides, and a proper prefix comes first. */
  lemma {:induction false} LessAtFirstDifference(p: Str, x: Byte, u: Str, y: Byte, v: Str)
    ensures Less(p + [x] + u, p + [y] + v) <==> x < y || (x == y && Less(u, v))
    ensures Less(p, p + [x] + u) && !Less(p + [x] + u, p)
  {
    var a, b := p + [x] + u, p + [y] + v;
    if p == [] {
      assert a[1..] == u && b[1..] == v;
    } else {
      LessAtFirstDifference(p[1..], x, u, y, v);
      assert a[1..] == p[1..] + [x] + u && b[1..] == p[1..] + [y] + v;
    }
  }

  // ---------------------------------------------------------------- stable strings

  ghost function Elements<T>(s: seq<T>): set<T> {
    set x | x in s
  }

  lemma {:induction false} SubsetSize<T>(a: set<T>, b: set<T>)
    requires a <= b
    ensures |a| <= |b|
  {
    if x :| x in a {
      SubsetSize(a - {x}, b - {x});
    }
  }

  predicate Increasing(s: seq<Str>) {
    forall i, j :: 0 <= i < j < |s| ==> Less(s[i], s[j])
  }

  function Insert(x: Str, s: seq<Str>): seq<Str> {
    if s == [] then [x]
    else if x == s[0] then s
    else if Less(x, s[0]) then [x] + s
    else [s[0]] + Insert(x, s[1..])
  }

  lemma {:induction false} InsertKeepsOrder(x: Str, s: seq<Str>)
    requires Increasing(s)
    ensures Increasing(Insert(x, s))
    ensures Elements(Insert(x, s)) == Elements(s) + {x}
  {
    if s == [] || x == s[0] {
    } else if Less(x, s[0]) {
      forall j | 0 < j < |s| ensures Less(x, s[j]) {
        LessTransitive(x, s[0], s[j]);
      }
    } else {
      LessTotal(x, s[0]);
      InsertKeepsOrder(x, s[1..]);
      var tail := Insert(x, s[1..]);
      assert Elements(s) == {s[0]} + Elements(s[1..]);
      forall j | 0 <= j < |tail| ensures Less(s[0], tail[j]) {
        assert tail[j] in Elements(tail);
        assert tail[j] == x || tail[j] in s[1..];
      }
      assert Insert(x, s) == [s[0]] + tail;
      assert Elements(Insert(x, s)) == {s[0]} + Elements(tail);
    }
  }

  /** `StableStrings`: a sorted copy without duplicates. */
  function Stable(s: seq<Str>): (r: seq<Str>) {
    if s == [] then [] else Insert(s[0], Stable(s[1..]))
  }

  lemma {:induction false} StableSorts(s: seq<Str>)
    ensures Increasing(Stable(s)) && Elements(Stable(s)) == Elements(s)
  {
    if s != [] {
      StableSorts(s[1..]);
      InsertKeepsOrder(s[0], Stable(s[1..]));
      assert Elements(s) == {s[0]} + Elements(s[1..]);
    }
  }

  lemma LessIsStrict()
    ensures Strict(Less)
  {
    hide Less;
    forall a ensures !Less(a, a) {
      LessIrreflexive(a);
    }
    forall a, b, c | Less(a, b) && Less(b, c) ensures Less(a, c) {
      LessTransitive(a, b, c);
    }
  }

  /** An increasing slice is determined by its elements. */
  lemma IncreasingUnique(a: seq<Str>, b: seq<Str>)
    requires Increasing(a) && Increasing(b) && Elements(a) == Elements(b)
    ensures a == b
  {
    hide Less;
    LessIsStrict();
    forall x ensures x in a <==> x in b {
      assert x in a <==> x in Elements(a);
      assert x in b <==> x in Elements(b);
    }
    AscendingUnique(a, b, Less);
  }

  lemma StableIgnoresOrder(a: seq<Str>, b: seq<Str>)
    requires Elements(a) == Elements(b)
    ensures Stable(a) == Stable(b)
  {
    StableSorts(a);
    StableSorts(b);
    IncreasingUnique(Stable(a), Stable(b));
  }

  lemma StableFixed(a: seq<Str>)
    requires Increasing(a)
    ensures Stable(a) == a
  {
    StableSorts(a);
    IncreasingUnique(Stable(a), a);
  }

  lemma {:induction false} IncreasingCount(s: seq<Str>)
    requires Increasing(s)
    ensures |Elements(s)| == |s|
  {
    if s != [] {
      IncreasingCount(s[1..]);
      assert Elements(s) == {s[0]} + Elements(s[1..]);
      if s[0] in s[1..] {
        LessIrreflexive(s[0]);
      }
    }
  }

  // ---------------------------------------------------------------- numerals

  /** `strconv.Itoa` of a non-negative number. */
  function Itoa(n: nat): (r: Str)
    ensures r != []
  {
    if n < 10 then [48 + n] else Itoa(n / 10) + [48 + n % 10]
  }

  lemma {:induction false} ItoaDigits(n: nat)
    ensures forall i :: 0 <= i < |Itoa(n)| ==> 48 <= Itoa(n)[i] <= 57
  {
    if n >= 10 {
      ItoaDigits(n / 10);
    }
  }

  /** The number a decimal numeral stands for. */
  function Decimal(s: Str): int {
    if s == [] then 0 else 10 * Decimal(s[..|s| - 1]) + s[|s| - 1] - 48
  }

  lemma {:induction false} ItoaIsDecimal(n: nat)
    ensures Decimal(Itoa(n)) == n
    ensures n > 0 ==> Itoa(n)[0] != 48
  {
    if n >= 10 {
      ItoaIsDecimal(n / 10);
      assert Itoa(n)[..|Itoa(n)| - 1] == Itoa(n / 10);
    } else {
      assert Itoa(n)[..0] == [];
    }
  }

  lemma {:induction false} ItoaInjective(m: nat, n: nat)
    requires Itoa(m) == Itoa(n)
    ensures m == n
  {
    assert m < 10 <==> |Itoa(m)| == 1;
    assert n < 10 <==> |Itoa(n)| == 1;
    if m >= 10 {
      var a, b := Itoa(m / 10), Itoa(n / 10);
      assert Itoa(m)[..|a|] == a && Itoa(n)[..|b|] == b;
      assert Itoa(m)[|a|] == 48 + m % 10 && Itoa(n)[|b|] == 48 + n % 10;
      assert |a| == |b|;
      ItoaInjective(m / 10, n / 10);
    }
  }

  function Pow10(k: nat): nat {
    if k == 0 then 1 else 10 * Pow10(k - 1)
  }

  lemma {:induction false} ItoaLength(n: nat, k: nat)
    requires k > 0 && n < Pow10(k)
    ensures |Itoa(n)| <= k
  {
    assert Pow10(0) == 1;
    if n >= 10 {
      assert n / 10 < Pow10(k - 1);
      ItoaLength(n / 10, k - 1);
    }
  }

  // ---------------------------------------------------------------- joined fields

  predicate Free(s: Str, sep: Byte) {
    forall i :: 0 <= i < |s| ==> s[i] != sep
  }

  /** A field is read back from a joined key: it ends at the first separator. */
  lemma {:induction false} SplitUnique(a: Str, x: Str, b: Str, y: Str, sep: Byte)
    requires Free(a, sep) && Free(b, sep)
    requires a + [sep] + x == b + [sep] + y
    ensures a == b && x == y
  {
    var l, r := a + [sep] + x, b + [sep] + y;
    assert l[|a|] == r[|a|] == sep;
    assert r[|b|] == l[|b|] == sep;
    assert a == l[..|a|] && b == r[..|b|];
    assert x == l[|a| + 1..] && y == r[|b| + 1..];
  }

  /** Comparing joined keys compares the first fields, then the rest, as long as
      the separator is the smallest byte and does not occur in the fields. */
  lemma {:induction false} JoinOrder(a: Str, x: Str, b: Str, y: Str)
    requires Free(a, 0) && Free(b, 0)
    ensures Less(a + [0] + x, b + [0] + y) <==> Less(a, b) || (a == b && Less(x, y))
  {
    var l, r := a + [0] + x, b + [0] + y;
    LessIrreflexive(a);
    if a == [] && b == [] {
      assert l[1..] == x && r[1..] == y;
    } else if a == [] {
      assert l[0] == 0 && r[0] == b[0];
    } else if b == [] {
      assert r[0] == 0 && l[0] == a[0];
    } else {
      assert l[0] == a[0] && r[0] == b[0];
      assert l[1..] == a[1..] + [0] + x && r[1..] == b[1..] + [0] + y;
      JoinOrder(a[1..], x, b[1..], y);
      if a[0] == b[0] && a[1..] == b[1..] {
        assert a == [a[0]] + a[1..] && b == [b[0]] + b[1..];
      }
    }
  }
}
