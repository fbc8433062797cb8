/** UTF-8 as section 4 of RFC 3629 defines it, and Go's backwards rune decoder. */
module Utf8 {
  import opened Text

  predicate Tail(b: Byte) {
    0x80 <= b <= 0xBF
  }

  /** How many bytes the well-formed character at the front of `s` has; 0 when
      there is none. */
  function RuneSize(s: Str): (n: nat)
    ensures n <= 4 && n <= |s|
  {
    if s == [] then 0
    else if s[0] < 0x80 then 1
    else if 0xC2 <= s[0] <= 0xDF && |s| >= 2 && Tail(s[1]) then 2
    else if 0xE0 <= s[0] <= 0xEF && |s| >= 3 && Second(s[0], s[1]) && Tail(s[2]) then 3
    else if 0xF0 <= s[0] <= 0xF4 && |s| >= 4 && Second(s[0], s[1]) && Tail(s[2]) && Tail(s[3]) then 4
    else 0
  }

  /** The first trailing byte of a longer character: the limits that exclude
      overlong forms, surrogates and values past U+10FFFF. */
  predicate Second(lead: Byte, b: Byte) {
    (if lead == 0xE0 then 0xA0 else if lead == 0xF0 then 0x90 else 0x80) <= b
    <= (if lead == 0xED then 0x9F else if lead == 0xF4 then 0x8F else 0xBF)
  }

  predicate Valid(s: Str)
    decreases |s|
  {
    s == [] || (RuneSize(s) > 0 && Valid(s[RuneSize(s)..]))
  }

  /** The characters of a valid string. */
  function Runes(s: Str): (rs: seq<Str>)
    requires Valid(s)
    decreases |s|
  {
    if s == [] then [] else [s[..RuneSize(s)]] + Runes(s[RuneSize(s)..])
  }

  function Join(rs: seq<Str>): Str {
    if rs == [] then [] else rs[0] + Join(rs[1..])
  }

  /** One well-formed character and nothing else. */
  predicate Rune(r: Str) {
    r != [] && RuneSize(r) == |r|
  }

  predicate AllRunes(rs: seq<Str>) {
    forall i :: 0 <= i < |rs| ==> Rune(rs[i])
  }

  lemma RuneInFront(r: Str, s: Str)
    requires Rune(r)
    ensures RuneSize(r + s) == |r| && (r + s)[..|r|] == r && (r + s)[|r|..] == s
  {
  }

  lemma FrontIsRune(s: Str)
    requires RuneSize(s) > 0
    ensures Rune(s[..RuneSize(s)])
  {
  }

  lemma {:induction false} RunesJoin(s: Str)
    requires Valid(s)
    ensures AllRunes(Runes(s)) && Join(Runes(s)) == s
    decreases |s|
  {
    if s != [] {
      hide RuneSize;
      var n := RuneSize(s);
      RunesJoin(s[n..]);
      FrontIsRune(s);
      assert Runes(s) == [s[..n]] + Runes(s[n..]);
      assert Runes(s)[1..] == Runes(s[n..]);
      assert s == s[..n] + s[n..];
    }
  }

  lemma {:induction false} JoinRunes(rs: seq<Str>)
    requires AllRunes(rs)
    ensures Valid(Join(rs)) && Runes(Join(rs)) == rs
  {
    if rs != [] {
      JoinRunes(rs[1..]);
      RuneInFront(rs[0], Join(rs[1..]));
      assert rs == [rs[0]] + rs[1..];
    }
  }

  lemma {:induction false} JoinConcat(a: seq<Str>, b: seq<Str>)
    ensures Join(a + b) == Join(a) + Join(b)
  {
    if a == [] {
      assert a + b == b;
    } else {
      assert (a + b)[1..] == a[1..] + b;
      JoinConcat(a[1..], b);
    }
  }

  lemma ValidConcat(s: Str, t: Str)
    requires Valid(s) && Valid(t)
    ensures Valid(s + t) && Runes(s + t) == Runes(s) + Runes(t)
  {
    RunesJoin(s);
    RunesJoin(t);
    JoinConcat(Runes(s), Runes(t));
    JoinRunes(Runes(s) + Runes(t));
  }

  /** Taking whole characters off either end leaves a valid string. */
  lemma ValidMiddle(s: Str, i: nat, j: nat)
    requires Valid(s) && i <= j <= |Runes(s)|
    ensures Valid(Join(Runes(s)[i..j])) && Runes(Join(Runes(s)[i..j])) == Runes(s)[i..j]
  {
    RunesJoin(s);
    JoinRunes(Runes(s)[i..j]);
  }

  // ------------------------------------------------------- code points

  /** A lead byte with the trailing bytes that its first bits ask for. */
  predicate Shaped(r: Str) {
    || (|r| == 1 && r[0] < 0x80)
    || (|r| == 2 && 0xC0 <= r[0] < 0xE0 && Tail(r[1]))
    || (|r| == 3 && 0xE0 <= r[0] < 0xF0 && Tail(r[1]) && Tail(r[2]))
    || (|r| == 4 && 0xF0 <= r[0] < 0xF8 && Tail(r[1]) && Tail(r[2]) && Tail(r[3]))
  }

  /** The payload bits. */
  function CodePoint(r: Str): int
    requires Shaped(r)
  {
    var bits: seq<int> := seq(|r|, i requires 0 <= i < |r| => r[i] as int);
    if |r| == 1 then bits[0]
    else if |r| == 2 then (bits[0] - 0xC0) * 64 + bits[1] - 0x80
    else if |r| == 3 then (bits[0] - 0xE0) * 4096 + (bits[1] - 0x80) * 64 + bits[2] - 0x80
    else (bits[0] - 0xF0) * 262144 + (bits[1] - 0x80) * 4096 + (bits[2] - 0x80) * 64 + bits[3] - 0x80
  }

  /** The least value that needs `n` bytes. */
  function LeastOf(n: nat): int {
    if n <= 1 then 0 else if n == 2 then 0x80 else if n == 3 then 0x800 else 0x10000
  }

  /** The well-formed characters are exactly the shortest forms of the code points that
      section 3 of RFC 3629 encodes: no surrogates, nothing past U+10FFFF. */
  lemma RunesAreCodePoints(r: Str)
    ensures Rune(r) <==>
      Shaped(r) && LeastOf(|r|) <= CodePoint(r) <= 0x10FFFF && !(0xD800 <= CodePoint(r) <= 0xDFFF)
  {
    if |r| == 2 || |r| == 3 || |r| == 4 {
      assert Rune(r) <==> RuneSize(r) == |r|;
    }
  }

  // ------------------------------------------------------- decoding backwards

  predicate RuneStart(b: Byte) {
    !Tail(b)
  }

  /** Where the backwards scan stops: the nearest byte that can start a
      character, no further than `lim`. */
  function ScanBack(s: Str, start: int, lim: nat): (k: nat)
    requires -1 <= start < |s|
    ensures k < |s| || s == []
    decreases start + 1
  {
    if start < lim then (if start < 0 then 0 else start)
    else if RuneStart(s[start]) then start
    else ScanBack(s, start - 1, lim)
  }

  /** The size `utf8.DecodeLastRuneInString` reports. */
  function LastRuneSize(s: Str): (n: nat)
    requires s != []
    ensures 1 <= n <= |s|
  {
    var end := |s|;
    if s[end - 1] < 0x80 then 1
    else
      var lim := if end < 4 then 0 else end - 4;
      var start := ScanBack(s, end - 2, lim);
      var size := RuneSize(s[start..]);
      if size > 0 && start + size == end then size else 1
  }

  lemma RuneTail(r: Str)
    requires Rune(r)
    ensures RuneStart(r[0]) && forall i :: 1 <= i < |r| ==> Tail(r[i])
  {
  }

  lemma {:induction false} ScanBackFinds(s: Str, start: int, lim: nat, at: nat)
    requires lim <= at <= start < |s|
    requires RuneStart(s[at]) && forall i :: at < i <= start ==> Tail(s[i])
    ensures ScanBack(s, start, lim) == at
    decreases start
  {
    if start > at {
      ScanBackFinds(s, start - 1, lim, at);
    }
  }

  lemma EndsWithRune(front: Str, last: Str)
    requires Rune(last)
    ensures LastRuneSize(front + last) == |last|
  {
    var s, at := front + last, |front|;
    RuneTail(last);
    assert s[at..] == last && s[at] == last[0];
    if |last| == 1 {
      assert last[0] < 0x80;
    } else {
      assert Tail(last[|last| - 1]) && s[|s| - 1] == last[|last| - 1];
      assert forall i :: at < i <= |s| - 2 ==> s[i] == last[i - at];
      ScanBackFinds(s, |s| - 2, if |s| < 4 then 0 else |s| - 4, at);
    }
  }

  /** On a valid string the backwards decoder finds exactly the last character. */
  lemma LastRuneIsLast(s: Str)
    requires Valid(s) && s != []
    ensures var rs := Runes(s);
      rs != [] && LastRuneSize(s) == |rs[|rs| - 1]| &&
      s[..|s| - LastRuneSize(s)] == Join(rs[..|rs| - 1])
  {
    hide RuneSize, LastRuneSize;
    var rs := Runes(s);
    RunesJoin(s);
    var last, front := rs[|rs| - 1], rs[..|rs| - 1];
    assert rs == front + [last];
    JoinConcat(front, [last]);
    assert Join([last]) == last + Join([]) == last;
    assert s == Join(front) + last;
    EndsWithRune(Join(front), last);
  }
}
