/** Provenance labels "(category/list)" and the bounded device comment made of
    them: internal/application/managed_routes.go, lines 97-194. */
module RouteLabels {
  import opened Text
  import Utf8

  const MAX_DESCRIPTION_BYTES := 96
  const MAX_LABEL_BYTES := 1024
  // The largest length a Go slice can have.
  const MAX_INT := 0x7FFF_FFFF_FFFF_FFFF

  const OPEN: Byte := 40
  const CLOSE: Byte := 41
  const SEPARATOR: Byte := 47
  const SPACE: Str := [32]
  const ELLIPSIS: Str := [0xE2, 0x80, 0xA6]
  const PLUS: Str := [32, 43]

  /** No C0 control and no DEL. Bytes of longer characters are all above 0x7F,
      so the byte test is the character test. */
  predicate ControlFree(s: Str) {
    forall i :: 0 <= i < |s| ==> s[i] >= 0x20 && s[i] != 0x7F
  }

  /** `unicode.IsSpace` on one character. */
  predicate SpaceRune(r: Str) {
    || (|r| == 1 && (9 <= r[0] <= 13 || r[0] == 32))
    || r == [0xC2, 0x85] || r == [0xC2, 0xA0] || r == [0xE1, 0x9A, 0x80]
    || (|r| == 3 && r[0] == 0xE2 && r[1] == 0x80 && (r[2] <= 0x8A || r[2] in {0xA8, 0xA9, 0xAF}))
    || r == [0xE2, 0x81, 0x9F] || r == [0xE3, 0x80, 0x80]
  }

  /** These are the code points with the White_Space property. */
  lemma SpacesAreWhite(r: Str)
    requires Utf8.Rune(r)
    ensures Utf8.Shaped(r)
    ensures var c := Utf8.CodePoint(r);
      SpaceRune(r) <==>
        9 <= c <= 13 || c in {0x20, 0x85, 0xA0, 0x1680, 0x2028, 0x2029, 0x202F, 0x205F, 0x3000} || 0x2000 <= c <= 0x200A
  {
    Utf8.RunesAreCodePoints(r);
  }

  function Pending(word: Str): seq<Str> {
    if word == [] then [] else [word]
  }

  /** `strings.Fields`. */
  function Fields(rs: seq<Str>, word: Str): seq<Str> {
    if rs == [] then Pending(word)
    else if SpaceRune(rs[0]) then Pending(word) + Fields(rs[1..], [])
    else Fields(rs[1..], word + rs[0])
  }

  function JoinWords(words: seq<Str>): Str {
    if words == [] then [] else if |words| == 1 then words[0] else words[0] + SPACE + JoinWords(words[1..])
  }

  predicate ValidSegment(s: Str) {
    && s != []
    && Utf8.Valid(s)
    && s == JoinWords(Fields(Utf8.Runes(s), []))
    && forall i :: 0 <= i < |s| ==> s[i] !in {92, OPEN, CLOSE, 43}
  }

  /** The inner text has exactly one separator and a usable segment on each side. */
  predicate TwoSegments(inner: Str) {
    exists i :: 0 <= i < |inner| && inner[i] == SEPARATOR &&
      Free(inner[..i], SEPARATOR) && Free(inner[i + 1..], SEPARATOR) &&
      ValidSegment(inner[..i]) && ValidSegment(inner[i + 1..])
  }

  function Inner(text: Str): Str
    requires |text| >= 2
  {
    text[1..|text| - 1]
  }

  predicate ValidLabel(text: Str) {
    && Utf8.Valid(text)
    && 3 <= |text| <= MAX_LABEL_BYTES
    && text[0] == OPEN && text[|text| - 1] == CLOSE
    && TwoSegments(Inner(text))
    && ControlFree(text)
  }

  predicate ValidDescription(d: Str) {
    Utf8.Valid(d) && |d| <= MAX_DESCRIPTION_BYTES && ControlFree(d)
  }

  predicate ValidLabels(labels: seq<Str>) {
    forall i :: 0 <= i < |labels| ==> ValidLabel(labels[i])
  }

  /** `canonicalManagedLabels`: the stable form, or a refusal. */
  predicate CanonicalLabels(labels: seq<Str>) {
    Increasing(labels) && ValidLabels(labels)
  }

  /** Plain text: printable ASCII. */
  predicate Plain(s: Str) {
    forall i :: 0 <= i < |s| ==> 0x20 <= s[i] < 0x7F
  }

  function Singles(s: Str): seq<Str> {
    if s == [] then [] else [[s[0]]] + Singles(s[1..])
  }

  lemma {:induction false} SinglesSize(s: Str)
    ensures |Singles(s)| == |s|
  {
    if s != [] {
      SinglesSize(s[1..]);
    }
  }

  lemma {:induction false} PlainRunes(s: Str)
    requires Plain(s)
    ensures Utf8.Valid(s) && Utf8.Runes(s) == Singles(s)
  {
    if s != [] {
      PlainRunes(s[1..]);
      assert Utf8.RuneSize(s) == 1 && s[..1] == [s[0]];
    }
  }

  /** No space in front (of the first word), none at the end, no two in a row. */
  predicate Spaced(s: Str, started: bool) {
    if s == [] then true
    else if s[0] == 0x20 then started && |s| > 1 && s[1] != 0x20 && Spaced(s[1..], false)
    else Spaced(s[1..], true)
  }

  lemma FieldsStep(s: Str, word: Str)
    requires Plain(s) && s != []
    ensures Fields(Singles(s), word) ==
      if s[0] == 0x20 then Pending(word) + Fields(Singles(s[1..]), []) else Fields(Singles(s[1..]), word + [s[0]])
  {
    assert Singles(s)[1..] == Singles(s[1..]);
    assert SpaceRune([s[0]]) <==> s[0] == 0x20;
  }

  lemma WordFirst(word: Str, rest: seq<Str>)
    ensures JoinWords([word] + rest) == if rest == [] then word else word + SPACE + JoinWords(rest)
  {
    assert ([word] + rest)[1..] == rest;
  }

  /** Splitting into words and joining them again gives back the text exactly when it is
      spaced; otherwise something was lost. */
  lemma {:induction false} WordsJoined(s: Str, word: Str)
    requires Plain(s)
    ensures var joined := JoinWords(Fields(Singles(s), word));
      if Spaced(s, word != []) then joined == word + s else |joined| < |word| + |s|
    ensures word != [] || (s != [] && s[0] != 0x20) ==> Fields(Singles(s), word) != []
  {
    hide Fields, JoinWords, SpaceRune, Singles;
    if s == [] {
      NoFields(word);
      assert word + s == word;
    } else {
      FieldsStep(s, word);
      if s[0] == 0x20 {
        WordsJoined(s[1..], []);
        NoFields([]);
        var rest := Fields(Singles(s[1..]), []);
        WordFirst(word, rest);
        assert [] + s[1..] == s[1..] && [] + rest == rest;
        assert word + SPACE + s[1..] == word + s;
      } else {
        WordsJoined(s[1..], word + [s[0]]);
        assert word + [s[0]] + s[1..] == word + s;
      }
    }
  }

  lemma NoFields(word: Str)
    ensures Fields(Singles([]), word) == Pending(word) && JoinWords(Pending(word)) == word
  {
  }

  /** A plain segment is one or more words with single spaces between them, without any
      of the bytes that mean something in a comment. */
  lemma PlainSegment(s: Str)
    requires Plain(s)
    ensures ValidSegment(s) <==>
      s != [] && Spaced(s, false) && forall i :: 0 <= i < |s| ==> s[i] !in {0x28, 0x29, 0x2B, 0x5C}
  {
    PlainRunes(s);
    WordsJoined(s, []);
    assert [] + s == s;
  }

  /** A plain label is "(category/list)" of two such segments, each without a slash. */
  lemma PlainLabel(a: Str, b: Str)
    requires Plain(a) && Plain(b) && Free(a, 0x2F) && Free(b, 0x2F)
    ensures ValidLabel([0x28] + a + [0x2F] + b + [0x29]) <==>
      ValidSegment(a) && ValidSegment(b) && |a| + |b| <= 1021
  {
    hide ValidSegment, TwoSegments, Utf8.Valid, Utf8.Runes;
    var text, inner := [0x28] + a + [0x2F] + b + [0x29], a + [0x2F] + b;
    PlainRunes(text);
    assert Inner(text) == inner;
    TwoPlainSegments(a, b);
    SegmentIsText(a);
    SegmentIsText(b);
  }

  lemma TwoPlainSegments(a: Str, b: Str)
    requires Free(a, SEPARATOR) && Free(b, SEPARATOR)
    ensures TwoSegments(a + [SEPARATOR] + b) <==> ValidSegment(a) && ValidSegment(b)
  {
    hide ValidSegment;
    var inner := a + [SEPARATOR] + b;
    assert inner[..|a|] == a && inner[|a| + 1..] == b && inner[|a|] == SEPARATOR;
    assert forall i :: 0 <= i < |a| ==> inner[i] == a[i];
    assert forall i :: |a| < i < |inner| ==> inner[i] == b[i - |a| - 1];
  }

  // ---------------------------------------------------------------- one label

  /** The longest run of whole characters that fits into `budget` bytes. */
  function LongestFit(rs: seq<Str>, budget: nat): seq<Str> {
    if rs == [] || |rs[0]| > budget then [] else [rs[0]] + LongestFit(rs[1..], budget - |rs[0]|)
  }

  lemma {:induction false} LongestFitIsMaximal(rs: seq<Str>, budget: nat)
    ensures var k := |LongestFit(rs, budget)|;
      k <= |rs| && LongestFit(rs, budget) == rs[..k] && |Utf8.Join(rs[..k])| <= budget &&
      (k < |rs| ==> |Utf8.Join(rs[..k + 1])| > budget)
  {
    if rs == [] {
    } else if |rs[0]| > budget {
      assert rs[..1] == [rs[0]];
      assert Utf8.Join(rs[..1]) == rs[0] + Utf8.Join(rs[..1][1..]);
    } else {
      var rest := rs[1..];
      LongestFitIsMaximal(rest, budget - |rs[0]|);
      var j := |LongestFit(rest, budget - |rs[0]|)|;
      assert rs[..j + 1] == [rs[0]] + rest[..j];
      assert rs[..j + 1][1..] == rest[..j];
      if j < |rest| {
        assert rs[..j + 2][1..] == rest[..j + 1];
      }
    }
  }

  lemma {:induction false} JoinGrows(rs: seq<Str>, i: nat, j: nat)
    requires i <= j <= |rs|
    ensures |Utf8.Join(rs[..i])| <= |Utf8.Join(rs[..j])|
  {
    assert rs[..j] == rs[..i] + rs[i..j];
    Utf8.JoinConcat(rs[..i], rs[i..j]);
  }

  lemma LongestFitUnique(rs: seq<Str>, budget: nat, k: nat)
    requires k <= |rs| && |Utf8.Join(rs[..k])| <= budget
    requires k < |rs| ==> |Utf8.Join(rs[..k + 1])| > budget
    ensures LongestFit(rs, budget) == rs[..k]
  {
    LongestFitIsMaximal(rs, budget);
    var f := |LongestFit(rs, budget)|;
    if f < k {
      JoinGrows(rs, f + 1, k);
    } else if k < f {
      JoinGrows(rs, k + 1, f);
    }
  }

  function Budget(maximum: int): int {
    maximum - 2 - |ELLIPSIS|
  }

  /** A label cut to at most `maximum` bytes, between two characters. */
  function Truncated(text: Str, maximum: int): Str
    requires |text| >= 2 && Utf8.Valid(Inner(text))
  {
    if |text| <= maximum then text
    else if Budget(maximum) < 0 then [OPEN, CLOSE]
    else [OPEN] + Utf8.Join(LongestFit(Utf8.Runes(Inner(text)), Budget(maximum))) + ELLIPSIS + [CLOSE]
  }

  lemma HalvesValid(left: Str, right: Str)
    requires Utf8.Valid(left) && Utf8.Valid(right)
    ensures Utf8.Valid(left + [SEPARATOR] + right)
  {
    hide Utf8.Valid, Utf8.Runes;
    SeparatorIsValid();
    Utf8.ValidConcat(left, [SEPARATOR]);
    Utf8.ValidConcat(left + [SEPARATOR], right);
  }

  lemma SegmentIsText(s: Str)
    ensures ValidSegment(s) ==> s != [] && Utf8.Valid(s)
  {
    hide Utf8.Valid, Utf8.Runes, Fields, JoinWords;
  }

  lemma TwoSegmentsValid(inner: Str)
    requires TwoSegments(inner)
    ensures Utf8.Valid(inner)
  {
    hide Utf8.Valid, Utf8.Runes, ValidSegment;
    var i :| 0 <= i < |inner| && inner[i] == SEPARATOR && ValidSegment(inner[..i]) && ValidSegment(inner[i + 1..]);
    SegmentIsText(inner[..i]);
    SegmentIsText(inner[i + 1..]);
    HalvesValid(inner[..i], inner[i + 1..]);
    assert inner == inner[..i] + [SEPARATOR] + inner[i + 1..];
  }

  lemma InnerIsValid(text: Str)
    requires ValidLabel(text)
    ensures |text| >= 3 && Utf8.Valid(text) && ControlFree(text) && text[0] == OPEN && text[|text| - 1] == CLOSE
    ensures Utf8.Valid(Inner(text)) && ControlFree(Inner(text)) && text == [OPEN] + Inner(text) + [CLOSE]
  {
    hide Utf8.Valid, TwoSegments;
    TwoSegmentsValid(Inner(text));
    Unwrapped(text);
  }

  lemma Unwrapped(text: Str)
    requires |text| >= 3 && text[0] == OPEN && text[|text| - 1] == CLOSE && ControlFree(text)
    ensures ControlFree(Inner(text)) && text == [OPEN] + Inner(text) + [CLOSE]
  {
    hide Utf8.Valid;
  }

  lemma SeparatorIsValid()
    ensures Utf8.Valid([SEPARATOR]) && Utf8.Valid([OPEN]) && Utf8.Valid([CLOSE])
    ensures Utf8.Valid(ELLIPSIS) && ControlFree(ELLIPSIS)
    ensures Utf8.Valid([OPEN, CLOSE])
  {
    assert Utf8.RuneSize([SEPARATOR]) == Utf8.RuneSize([OPEN]) == Utf8.RuneSize([CLOSE]) == 1;
    assert Utf8.RuneSize(ELLIPSIS) == 3 && ELLIPSIS[3..] == [];
    assert [OPEN, CLOSE][1..] == [CLOSE];
  }

  /** What a cut keeps of the inner text: whole characters, as many as fit. */
  lemma KeptCharacters(inner: Str, budget: nat) returns (k: nat)
    requires Utf8.Valid(inner) && |inner| > budget
    ensures k < |Utf8.Runes(inner)| && LongestFit(Utf8.Runes(inner), budget) == Utf8.Runes(inner)[..k]
    ensures var kept := Utf8.Join(Utf8.Runes(inner)[..k]);
      Utf8.Valid(kept) && |kept| <= budget < |kept| + |Utf8.Runes(inner)[k]| && kept <= inner
  {
    hide Utf8.Valid, Utf8.Runes;
    var rs := Utf8.Runes(inner);
    Utf8.RunesJoin(inner);
    LongestFitIsMaximal(rs, budget);
    k := |LongestFit(rs, budget)|;
    assert rs[0..k] == rs[..k];
    Utf8.ValidMiddle(inner, 0, k);
    assert rs == rs[..k] + rs[k..];
    Utf8.JoinConcat(rs[..k], rs[k..]);
    assert rs[..k + 1] == rs[..k] + [rs[k]];
    Utf8.JoinConcat(rs[..k], [rs[k]]);
    assert Utf8.Join([rs[k]]) == rs[k] + Utf8.Join([]);
  }

  lemma WrappedIsValid(kept: Str)
    requires Utf8.Valid(kept)
    ensures Utf8.Valid([OPEN] + kept + ELLIPSIS + [CLOSE])
  {
    hide Utf8.Valid, Utf8.Runes;
    SeparatorIsValid();
    Utf8.ValidConcat([OPEN], kept);
    Utf8.ValidConcat([OPEN] + kept, ELLIPSIS);
    Utf8.ValidConcat([OPEN] + kept + ELLIPSIS, [CLOSE]);
  }

  /** The cut label is a bounded, valid comment; what is kept is a run of whole
      characters from the front, as long as the bound allows. */
  lemma TruncatedIsValid(text: Str, maximum: int)
    requires ValidLabel(text) && maximum >= 5
    ensures |text| >= 2 && Utf8.Valid(Inner(text))
    ensures var t := Truncated(text, maximum);
      Utf8.Valid(t) && ControlFree(t) && |t| <= maximum && t != [] &&
      t[0] == OPEN && t[|t| - 1] == CLOSE
    ensures |text| > maximum ==>
      var rs := Utf8.Runes(Inner(text));
      exists k :: 0 <= k < |rs| &&
        Truncated(text, maximum) == [OPEN] + Utf8.Join(rs[..k]) + ELLIPSIS + [CLOSE] &&
        |Truncated(text, maximum)| + |rs[k]| > maximum
  {
    hide Utf8.Valid, Utf8.Runes, ValidLabel;
    InnerIsValid(text);
    if |text| > maximum {
      var k := KeptCharacters(Inner(text), Budget(maximum));
      var kept := Utf8.Join(Utf8.Runes(Inner(text))[..k]);
      WrappedIsValid(kept);
      SeparatorIsValid();
      assert forall i :: 0 <= i < |kept| ==> kept[i] == Inner(text)[i];
    }
  }

  /** `truncateManagedLabel`. */
  method TruncateManagedLabel(text: Str, maximum: int) returns (r: Str)
    requires ValidLabel(text)
    ensures |text| >= 2 && Utf8.Valid(Inner(text)) && r == Truncated(text, maximum)
  {
    hide Utf8.Valid, Utf8.Runes, ValidLabel, Utf8.LastRuneSize;
    InnerIsValid(text);
    if |text| <= maximum {
      return text;
    }
    var inner := Inner(text);
    var budget := maximum - 2 - |ELLIPSIS|;
    if budget < 0 {
      return [OPEN, CLOSE];
    }
    ghost var rs := Utf8.Runes(inner);
    ghost var k := |rs|;
    Utf8.RunesJoin(inner);
    assert rs[..k] == rs;
    while |inner| > budget
      invariant 0 <= k <= |rs| && Utf8.Valid(inner) && Utf8.Runes(inner) == rs[..k] && inner == Utf8.Join(rs[..k])
      invariant k < |rs| ==> |Utf8.Join(rs[..k + 1])| > budget
      decreases |inner|
    {
      Utf8.LastRuneIsLast(inner);
      var size := Utf8.LastRuneSize(inner);
      assert rs[..k][..k - 1] == rs[..k - 1];
      assert rs[..k][0..k - 1] == rs[..k - 1];
      Utf8.ValidMiddle(inner, 0, k - 1);
      inner := inner[..|inner| - size];
      k := k - 1;
    }
    LongestFitUnique(rs, budget, k);
    return [OPEN] + inner + ELLIPSIS + [CLOSE];
  }

  // ------------------------------------------------------------ a set of labels

  ghost function SeqOf(s: set<Str>): seq<Str> {
    if s == {} then [] else var x :| x in s; [x] + SeqOf(s - {x})
  }

  lemma {:induction false} SeqOfElements(s: set<Str>)
    ensures Elements(SeqOf(s)) == s
  {
    if s != {} {
      var x :| x in s && SeqOf(s) == [x] + SeqOf(s - {x});
      SeqOfElements(s - {x});
      assert Elements([x] + SeqOf(s - {x})) == {x} + Elements(SeqOf(s - {x}));
    }
  }

  ghost function Sorted(s: set<Str>): seq<Str> {
    Stable(SeqOf(s))
  }

  lemma SortedIsStable(labels: seq<Str>)
    ensures Stable(labels) == Sorted(Elements(labels))
  {
    SeqOfElements(Elements(labels));
    StableIgnoresOrder(labels, SeqOf(Elements(labels)));
  }

  lemma SortedElements(s: set<Str>)
    ensures Elements(Sorted(s)) == s && Increasing(Sorted(s)) && |Sorted(s)| == |s|
  {
    SeqOfElements(s);
    StableSorts(SeqOf(s));
    IncreasingCount(Sorted(s));
  }

  function Suffix(count: nat): Str {
    if count > 1 then PLUS + Itoa(count - 1) else []
  }

  ghost predicate Usable(labels: set<Str>) {
    labels != {} && forall l :: l in labels ==> ValidLabel(l)
  }

  /** The device comment of a complete provenance set: its least label and how
      many others there are. It does not depend on any order. */
  ghost function Describe(labels: set<Str>): Str {
    if !Usable(labels) then []
    else
      SortedElements(labels);
      var first := Sorted(labels)[0];
      assert first in Elements(Sorted(labels));
      InnerIsValid(first);
      Truncated(first, MAX_DESCRIPTION_BYTES - |Suffix(|labels|)|) + Suffix(|labels|)
  }

  lemma SuffixIsShort(count: nat)
    requires count <= MAX_INT
    ensures |Suffix(count)| <= 21 && Utf8.Valid(Suffix(count)) && ControlFree(Suffix(count))
  {
    if count > 1 {
      assert Pow10(0) == 1;
      assert Pow10(4) == 10 * Pow10(3) == 100 * Pow10(2) == 1000 * Pow10(1) == 10000;
      assert Pow10(8) == 10000 * Pow10(4);
      assert Pow10(12) == 10000 * Pow10(8);
      assert Pow10(16) == 10000 * Pow10(12);
      assert Pow10(19) == 1000 * Pow10(16);
      ItoaLength(count - 1, 19);
      ItoaDigits(count - 1);
      AsciiIsValid(Suffix(count));
    }
  }

  lemma {:induction false} AsciiIsValid(s: Str)
    requires forall i :: 0 <= i < |s| ==> s[i] < 0x80
    ensures Utf8.Valid(s)
    decreases |s|
  {
    if s != [] {
      assert Utf8.RuneSize(s) == 1;
      AsciiIsValid(s[1..]);
    }
  }

  /** Only an empty or unusable provenance set has the empty description. */
  lemma DescribeIsEmpty(labels: set<Str>)
    ensures Describe(labels) == [] <==> !Usable(labels)
  {
    hide Utf8.Valid, Utf8.Runes, ValidLabel, Sorted;
    if Usable(labels) {
      SortedElements(labels);
      var first := Sorted(labels)[0];
      assert first in Elements(Sorted(labels));
      InnerIsValid(first);
    }
  }

  /** Every description is a valid comment of at most 96 bytes. */
  lemma DescribeIsValid(labels: set<Str>)
    requires |labels| <= MAX_INT
    ensures ValidDescription(Describe(labels))
  {
    hide Utf8.Valid, Utf8.Runes, ValidLabel, Truncated, Sorted;
    if Usable(labels) {
      SortedElements(labels);
      var first := Sorted(labels)[0];
      assert first in Elements(Sorted(labels));
      var suffix := Suffix(|labels|);
      SuffixIsShort(|labels|);
      TruncatedIsValid(first, MAX_DESCRIPTION_BYTES - |suffix|);
      var t := Truncated(first, MAX_DESCRIPTION_BYTES - |suffix|);
      Utf8.ValidConcat(t, suffix);
    } else {
      AsciiIsValid([]);
    }
  }

  /** What follows the least label: how many others there are, in decimal. */
  ghost function Others(labels: set<Str>): Str {
    if |labels| <= 1 then [] else [0x20, 0x2B] + Itoa(|labels| - 1)
  }

  ghost predicate Least(l: Str, labels: set<Str>) {
    l in labels && forall x :: x in labels ==> x == l || Less(l, x)
  }

  lemma LeastIsFirst(l: Str, labels: set<Str>)
    requires Least(l, labels)
    ensures |Sorted(labels)| > 0 && Sorted(labels)[0] == l
  {
    hide Less, Sorted;
    SortedElements(labels);
    var s := Sorted(labels);
    assert l in Elements(s);
    assert s[0] in Elements(s);
    var i :| 0 <= i < |s| && s[i] == l;
    if i > 0 && s[0] != l {
      LessTransitive(l, s[0], l);
      LessIrreflexive(l);
    }
  }

  /** The comment shows the least label and the number of the others. A label that does
      not fit loses whole characters at its end for an ellipsis, no more than needed,
      and keeps its parentheses; the number is never cut. */
  lemma DescribeShows(labels: set<Str>, l: Str)
    requires Usable(labels) && |labels| <= MAX_INT && Least(l, labels)
    ensures |l| + |Others(labels)| <= 96 ==> Describe(labels) == l + Others(labels)
    ensures |l| + |Others(labels)| > 96 ==>
      |l| >= 2 && Utf8.Valid(l[1..|l| - 1]) &&
      var rs := Utf8.Runes(l[1..|l| - 1]);
      exists k :: 0 <= k < |rs| &&
        Describe(labels) == [0x28] + Utf8.Join(rs[..k]) + [0xE2, 0x80, 0xA6] + [0x29] + Others(labels) &&
        |Describe(labels)| + |rs[k]| > 96
  {
    hide Utf8.Valid, Utf8.Runes, ValidLabel, Sorted, Less, Truncated;
    LeastIsFirst(l, labels);
    var suffix := Suffix(|labels|);
    assert suffix == Others(labels);
    SuffixIsShort(|labels|);
    InnerIsValid(l);
    TruncatedIsValid(l, MAX_DESCRIPTION_BYTES - |suffix|);
    if |l| <= MAX_DESCRIPTION_BYTES - |suffix| {
      FittingIsWhole(l, MAX_DESCRIPTION_BYTES - |suffix|);
    }
  }

  lemma FittingIsWhole(text: Str, maximum: int)
    requires |text| >= 2 && Utf8.Valid(Inner(text)) && |text| <= maximum
    ensures Truncated(text, maximum) == text
  {
  }

  lemma UsableElements(labels: seq<Str>)
    requires labels != [] && ValidLabels(labels)
    ensures Usable(Elements(labels))
  {
    assert labels[0] in Elements(labels);
  }

  /** `CompactManagedRouteDescription`. */
  method CompactManagedRouteDescription(labels: seq<Str>) returns (d: Str)
    ensures d == Describe(Elements(labels))
  {
    hide Utf8.Valid, Utf8.Runes, ValidLabel, Truncated, Stable, Sorted;
    var stable := Stable(labels);
    StableSorts(labels);
    SortedIsStable(labels);
    IncreasingCount(stable);
    var i := 0;
    while i < |stable|
      invariant 0 <= i <= |stable|
      invariant forall j :: 0 <= j < i ==> ValidLabel(stable[j])
    {
      if !ValidLabel(stable[i]) {
        assert stable[i] in Elements(stable);
        return [];
      }
      i := i + 1;
    }
    if |stable| == 0 {
      return [];
    }
    UsableElements(stable);
    var suffix := [];
    if |stable| > 1 {
      suffix := PLUS + Itoa(|stable| - 1);
    }
    var front := TruncateManagedLabel(stable[0], MAX_DESCRIPTION_BYTES - |suffix|);
    return front + suffix;
  }
}
