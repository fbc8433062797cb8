/** The canonical order of a routing plan, the order check that guards publication,
    and what the semantic hash is computed from. internal/planner/canonical.go and
    internal/application/preflight.go. Hashes stand for the values they are made of. */
module Canonical {
  import opened Text
  import opened Sorting
  import opened Wrappers

  // The five fields the order compares, and the rest of what is hashed.
  datatype Rule = Rule(kind: Str, value: Str, list: Str, component: Str, origin: Str, action: Str,
    labels: seq<Str>, reasons: seq<Str>, provenance: seq<Str>)

  // -------------------------------------------------------------- two orders

  /** `sortRules`: field after field. */
  predicate TupleBefore(a: Rule, b: Rule) {
    Less(a.kind, b.kind) || (a.kind == b.kind && (
      Less(a.value, b.value) || (a.value == b.value && (
        Less(a.list, b.list) || (a.list == b.list && (
          Less(a.component, b.component) || (a.component == b.component && Less(a.origin, b.origin))))))))
  }

  /** `ruleSortKey`: the fields joined by NUL. */
  function SortKey(r: Rule): Str {
    r.kind + [0] + (r.value + [0] + (r.list + [0] + (r.component + [0] + r.origin)))
  }

  function CandidateKey(r: Rule): Str {
    r.kind + [0] + (r.value + [0] + (r.list + [0] + r.component))
  }

  predicate NulFree(r: Rule) {
    Free(r.kind, 0) && Free(r.value, 0) && Free(r.list, 0) && Free(r.component, 0)
  }

  /** For fields without NUL, comparing tuples and comparing joined keys is the same. */
  lemma TupleOrderIsKeyOrder(a: Rule, b: Rule)
    requires NulFree(a) && NulFree(b)
    ensures TupleBefore(a, b) <==> Less(SortKey(a), SortKey(b))
  {
    hide Less, Free;
    var a3, b3 := a.component + [0] + a.origin, b.component + [0] + b.origin;
    var a2, b2 := a.list + [0] + a3, b.list + [0] + b3;
    var a1, b1 := a.value + [0] + a2, b.value + [0] + b2;
    JoinOrder(a.component, a.origin, b.component, b.origin);
    JoinOrder(a.list, a3, b.list, b3);
    JoinOrder(a.value, a2, b.value, b2);
    JoinOrder(a.kind, a1, b.kind, b1);
  }

  predicate SameTuple(a: Rule, b: Rule) {
    a.kind == b.kind && a.value == b.value && a.list == b.list && a.component == b.component && a.origin == b.origin
  }

  predicate SameCandidate(a: Rule, b: Rule) {
    a.kind == b.kind && a.value == b.value && a.list == b.list && a.component == b.component
  }

  lemma KeysName(a: Rule, b: Rule)
    requires NulFree(a) && NulFree(b)
    ensures SortKey(a) == SortKey(b) <==> SameTuple(a, b)
    ensures CandidateKey(a) == CandidateKey(b) <==> SameCandidate(a, b)
  {
    hide Free;
    if SortKey(a) == SortKey(b) {
      var a3, b3 := a.component + [0] + a.origin, b.component + [0] + b.origin;
      var a2, b2 := a.list + [0] + a3, b.list + [0] + b3;
      SplitUnique(a.kind, a.value + [0] + a2, b.kind, b.value + [0] + b2, 0);
      SplitUnique(a.value, a2, b.value, b2, 0);
      SplitUnique(a.list, a3, b.list, b3, 0);
      SplitUnique(a.component, a.origin, b.component, b.origin, 0);
    }
    if CandidateKey(a) == CandidateKey(b) {
      var a2, b2 := a.list + [0] + a.component, b.list + [0] + b.component;
      SplitUnique(a.kind, a.value + [0] + a2, b.kind, b.value + [0] + b2, 0);
      SplitUnique(a.value, a2, b.value, b2, 0);
      SplitUnique(a.list, a.component, b.list, b.component, 0);
    }
  }

  // -------------------------------------------------------------- preflight

  predicate Increasing(rules: seq<Rule>) {
    forall i, j :: 0 <= i < j < |rules| ==> Less(SortKey(rules[i]), SortKey(rules[j]))
  }

  predicate DistinctCandidates(rules: seq<Rule>) {
    forall i, j :: 0 <= i < j < |rules| ==> CandidateKey(rules[i]) != CandidateKey(rules[j])
  }

  predicate SortedByTuple(rules: seq<Rule>) {
    SortedBy(rules, TupleBefore)
  }

  predicate AllNulFree(rules: seq<Rule>) {
    forall i :: 0 <= i < |rules| ==> NulFree(rules[i])
  }

  /** The two orders agree where it matters: rules in canonical order are strictly
      increasing under the joined key as soon as their candidates are distinct. */
  lemma CanonicalIsIncreasing(rules: seq<Rule>)
    requires SortedByTuple(rules) && AllNulFree(rules) && DistinctCandidates(rules)
    ensures Increasing(rules)
  {
    hide Less, NulFree, SortKey, CandidateKey, TupleBefore;
    forall i, j | 0 <= i < j < |rules| ensures Less(SortKey(rules[i]), SortKey(rules[j])) {
      TupleOrderIsKeyOrder(rules[j], rules[i]);
      KeysName(rules[i], rules[j]);
      LessTotal(SortKey(rules[i]), SortKey(rules[j]));
    }
  }

  /** The order and duplicate checks of `preflightPlan`: neighbours only, and a set
      of identities. A plan in canonical order passes exactly when its candidates
      are distinct. */
  method CheckOrder(rules: seq<Rule>) returns (ok: bool)
    ensures ok <==> Increasing(rules) && DistinctCandidates(rules)
    ensures SortedByTuple(rules) && AllNulFree(rules) ==> (ok <==> DistinctCandidates(rules))
  {
    hide Less, SortKey, CandidateKey, NulFree, TupleBefore;
    if SortedByTuple(rules) && AllNulFree(rules) && DistinctCandidates(rules) {
      CanonicalIsIncreasing(rules);
    }
    var seen: set<Str> := {};
    var last: Str := [];
    for i := 0 to |rules|
      invariant i > 0 ==> last == SortKey(rules[i - 1])
      invariant seen == set k | 0 <= k < i :: CandidateKey(rules[k])
      invariant forall a, b :: 0 <= a < b < i ==> Less(SortKey(rules[a]), SortKey(rules[b]))
      invariant forall a, b :: 0 <= a < b < i ==> CandidateKey(rules[a]) != CandidateKey(rules[b])
    {
      var key := SortKey(rules[i]);
      if i > 0 && !Less(last, key) {
        return false;
      }
      if CandidateKey(rules[i]) in seen {
        return false;
      }
      forall a | 0 <= a < i ensures Less(SortKey(rules[a]), key) {
        if a < i - 1 {
          LessTransitive(SortKey(rules[a]), last, key);
        }
      }
      last := key;
      seen := seen + {CandidateKey(rules[i])};
    }
    return true;
  }

  // -------------------------------------------------------------- the rules of the payload

  /** What the hash takes from a rule; its string sets are made stable. */
  function Hashed(r: Rule): Rule {
    r.(labels := Stable(r.labels), reasons := Stable(r.reasons), provenance := Stable(r.provenance))
  }

  function MapHashed(rules: seq<Rule>): seq<Rule> {
    seq(|rules|, i requires 0 <= i < |rules| => Hashed(rules[i]))
  }

  function Keys(rules: seq<Rule>): seq<Str> {
    seq(|rules|, i requires 0 <= i < |rules| => SortKey(rules[i]))
  }

  predicate Nondecreasing(keys: seq<Str>) {
    forall i, j :: 0 <= i < j < |keys| ==> !Less(keys[j], keys[i])
  }

  lemma HeadsAgree(a: seq<Str>, b: seq<Str>)
    requires Nondecreasing(a) && Nondecreasing(b) && multiset(a) == multiset(b) && a != [] && b != []
    ensures a[0] == b[0]
  {
    hide Less;
    assert a[0] in multiset(b) && b[0] in multiset(a);
    var i :| 0 <= i < |b| && b[i] == a[0];
    var j :| 0 <= j < |a| && a[j] == b[0];
    LessTotal(a[0], b[0]);
  }

  lemma WithoutHead<T>(a: seq<T>)
    requires a != []
    ensures multiset(a) == multiset{a[0]} + multiset(a[1..])
  {
    assert a == [a[0]] + a[1..];
  }

  lemma SameSize<T>(a: seq<T>, b: seq<T>)
    requires multiset(a) == multiset(b)
    ensures |a| == |b|
  {
    assert |multiset(a)| == |a| && |multiset(b)| == |b|;
  }

  /** A sorted sequence of strings is determined by how often each occurs. */
  lemma {:induction false} NondecreasingUnique(a: seq<Str>, b: seq<Str>)
    requires Nondecreasing(a) && Nondecreasing(b) && multiset(a) == multiset(b)
    ensures a == b
    decreases |a|
  {
    SameSize(a, b);
    if a != [] {
      HeadsAgree(a, b);
      WithoutHead(a);
      WithoutHead(b);
      Cancel(a[0], multiset(a[1..]), multiset(b[1..]));
      NondecreasingUnique(a[1..], b[1..]);
      assert a == [a[0]] + a[1..] && b == [b[0]] + b[1..];
    }
  }

  lemma KeysWithout(b: seq<Rule>, i: nat)
    requires i < |b|
    ensures var rest := b[..i] + b[i + 1..];
      && multiset(b) == multiset{b[i]} + multiset(rest)
      && multiset(Keys(b)) == multiset{SortKey(b[i])} + multiset(Keys(rest))
  {
    hide SortKey;
    assert b == b[..i] + [b[i]] + b[i + 1..];
    assert Keys(b) == Keys(b[..i]) + [SortKey(b[i])] + Keys(b[i + 1..]);
    assert Keys(b[..i] + b[i + 1..]) == Keys(b[..i]) + Keys(b[i + 1..]);
  }

  lemma {:induction false} SameKeys(a: seq<Rule>, b: seq<Rule>)
    requires multiset(a) == multiset(b)
    ensures multiset(Keys(a)) == multiset(Keys(b))
    decreases |a|
  {
    hide SortKey, Keys;
    SameSize(a, b);
    if a == [] {
      assert b == [];
    } else {
      assert a[0] in multiset(b);
      var i :| 0 <= i < |b| && b[i] == a[0];
      KeysWithout(a, 0);
      KeysWithout(b, i);
      assert a[..0] + a[1..] == a[1..];
      Cancel(a[0], multiset(a[1..]), multiset(b[..i] + b[i + 1..]));
      SameKeys(a[1..], b[..i] + b[i + 1..]);
    }
  }

  /** Rules with the same five fields are the same to the hash. */
  predicate RulesAgree(rules: seq<Rule>) {
    forall a, b :: a in rules && b in rules && SameTuple(a, b) ==> Hashed(a) == Hashed(b)
  }

  /** Rules that pass preflight do. */
  lemma DistinctRulesAgree(rules: seq<Rule>)
    requires AllNulFree(rules) && DistinctCandidates(rules)
    ensures RulesAgree(rules)
  {
    hide NulFree, CandidateKey, Hashed;
    forall a, b | a in rules && b in rules && SameTuple(a, b) ensures a == b {
      var i :| 0 <= i < |rules| && rules[i] == a;
      var j :| 0 <= j < |rules| && rules[j] == b;
      KeysName(a, b);
      assert CandidateKey(rules[i]) == CandidateKey(rules[j]);
    }
  }

  /** Any two sorted arrangements of the same rules hash alike. */
  lemma RulesIgnoreOrder(p: seq<Rule>, a: seq<Rule>, b: seq<Rule>)
    requires AllNulFree(p) && RulesAgree(p)
    requires multiset(a) == multiset(p) && multiset(b) == multiset(p)
    requires SortedByTuple(a) && SortedByTuple(b)
    ensures MapHashed(a) == MapHashed(b)
  {
    hide NulFree, SortKey, TupleBefore, Hashed, Less, SameTuple;
    Members(p, a);
    Members(p, b);
    KeysNondecreasing(a);
    KeysNondecreasing(b);
    SameKeys(a, b);
    NondecreasingUnique(Keys(a), Keys(b));
    assert |Keys(a)| == |a| && |Keys(b)| == |b|;
    forall i | 0 <= i < |a| ensures Hashed(a[i]) == Hashed(b[i]) {
      assert a[i] in p && b[i] in p;
      assert Keys(a)[i] == SortKey(a[i]) && Keys(b)[i] == SortKey(b[i]);
      InFree(p, a[i]);
      InFree(p, b[i]);
      KeysName(a[i], b[i]);
    }
  }

  lemma InFree(p: seq<Rule>, r: Rule)
    requires AllNulFree(p) && r in p
    ensures NulFree(r)
  {
  }

  lemma Members(p: seq<Rule>, a: seq<Rule>)
    requires multiset(a) == multiset(p)
    ensures forall i :: 0 <= i < |a| ==> a[i] in p
    ensures AllNulFree(p) ==> AllNulFree(a)
  {
    hide NulFree;
    forall i | 0 <= i < |a| ensures a[i] in p {
      assert a[i] in multiset(a);
    }
  }

  lemma KeysNondecreasing(a: seq<Rule>)
    requires SortedByTuple(a) && AllNulFree(a)
    ensures Nondecreasing(Keys(a))
  {
    hide NulFree, SortKey, TupleBefore, Less;
    forall i, j | 0 <= i < j < |a| ensures !Less(Keys(a)[j], Keys(a)[i]) {
      TupleOrderIsKeyOrder(a[j], a[i]);
    }
  }

  // -------------------------------------------------------------- sightings

  // The fields that make two sightings the same observation.
  datatype Key = Key(list: Str, component: Str, kind: Str, value: Str, source: Str, revision: Str)

  // What a merge takes from every duplicate. Time 0 is the zero time.
  datatype Facts = Facts(first: nat, last: nat, until: nat, count: nat, trusted: bool)

  datatype Sighting = Sighting(key: Key, origin: Str, facts: Facts)

  // What `Fingerprint` hashes.
  datatype Print = Print(key: Key, origin: Str, trusted: bool)

  function Earlier(a: nat, b: nat): nat {
    if a == 0 || (b != 0 && b < a) then b else a
  }

  function Later(a: nat, b: nat): nat {
    if b > a then b else a
  }

  /** A duplicate merged into what is known. */
  function Merged(prior: Facts, s: Facts): Facts {
    Facts(Earlier(prior.first, s.first), Later(prior.last, s.last), Later(prior.until, s.until),
      Later(prior.count, s.count), prior.trusted || s.trusted)
  }

  /** Facts that sum up the sightings of one key, whatever their order: the earliest
      known first time, the latest other times, the highest count, any trust. */
  ghost predicate SumsUp(f: Facts, input: seq<Sighting>, k: Key) {
    && (forall s :: s in input && s.key == k ==>
      && (s.facts.first != 0 ==> 0 < f.first <= s.facts.first) && s.facts.last <= f.last && s.facts.until <= f.until
      && s.facts.count <= f.count && (s.facts.trusted ==> f.trusted))
    && (exists s :: s in input && s.key == k && s.facts.first == f.first)
    && (exists s :: s in input && s.key == k && s.facts.last == f.last)
    && (exists s :: s in input && s.key == k && s.facts.until == f.until)
    && (exists s :: s in input && s.key == k && s.facts.count == f.count)
    && (f.trusted ==> exists s :: s in input && s.key == k && s.facts.trusted)
  }

  lemma SumIsUnique(f: Facts, g: Facts, a: seq<Sighting>, b: seq<Sighting>, k: Key)
    requires SumsUp(f, a, k) && SumsUp(g, b, k) && forall s :: s in a <==> s in b
    ensures f == g
  {
  }

  lemma MergeSumsUp(f: Facts, input: seq<Sighting>, s: Sighting)
    ensures SumsUp(f, input, s.key) ==> SumsUp(Merged(f, s.facts), input + [s], s.key)
    ensures (forall x :: x in input ==> x.key != s.key) ==> SumsUp(s.facts, input + [s], s.key)
  {
    var more := input + [s];
    assert s in more;
    assert forall x :: x in more <==> x in input || x == s;
  }

  lemma OtherSum(f: Facts, input: seq<Sighting>, s: Sighting, k: Key)
    requires SumsUp(f, input, k) && s.key != k
    ensures SumsUp(f, input + [s], k)
  {
    assert forall x :: x in input + [s] <==> x in input || x == s;
    assert forall x :: x in input ==> x in input + [s];
  }

  /** The origin of the first sighting of a key. */
  function FirstOrigin(input: seq<Sighting>, k: Key): Option<Str> {
    if input == [] then None
    else
      var before, s := FirstOrigin(input[..|input| - 1], k), input[|input| - 1];
      if before.Some? then before else if s.key == k then Some(s.origin) else None
  }

  lemma {:induction false} FirstOriginOf(input: seq<Sighting>, k: Key)
    ensures FirstOrigin(input, k).Some? <==> exists s :: s in input && s.key == k
    ensures FirstOrigin(input, k).Some? ==>
      exists s :: s in input && s.key == k && s.origin == FirstOrigin(input, k).value
  {
    if input != [] {
      var n := |input| - 1;
      FirstOriginOf(input[..n], k);
      assert input == input[..n] + [input[n]];
      if FirstOrigin(input[..n], k).Some? {
        var s :| s in input[..n] && s.key == k && s.origin == FirstOrigin(input, k).value;
        assert s in input;
      } else if input[n].key == k {
        assert input[n] in input;
      }
    }
  }

  /** The deduplicated sightings: one for each key, facts summed up, everything that
      is not summed up taken from the first. */
  ghost predicate Deduplicated(input: seq<Sighting>, m: map<Key, Sighting>) {
    && (forall k :: k in m <==> FirstOrigin(input, k).Some?)
    && (forall k :: k in m ==>
      m[k].key == k && SumsUp(m[k].facts, input, k) && FirstOrigin(input, k) == Some(m[k].origin))
  }

  lemma DeduplicatedStep(input: seq<Sighting>, i: nat, m: map<Key, Sighting>)
    requires i < |input| && Deduplicated(input[..i], m)
    ensures var s := input[i];
      Deduplicated(input[..i + 1],
        m[s.key := if s.key in m then m[s.key].(facts := Merged(m[s.key].facts, s.facts)) else s])
  {
    hide SumsUp, Merged;
    var s, before, after := input[i], input[..i], input[..i + 1];
    var next := m[s.key := if s.key in m then m[s.key].(facts := Merged(m[s.key].facts, s.facts)) else s];
    assert after == before + [s] && after[..|after| - 1] == before;
    FirstOriginOf(before, s.key);
    forall k ensures k in next <==> FirstOrigin(after, k).Some? {
    }
    forall k | k in next
      ensures next[k].key == k && SumsUp(next[k].facts, after, k) && FirstOrigin(after, k) == Some(next[k].origin)
    {
      if k != s.key {
        OtherSum(m[k].facts, before, s, k);
      } else if k in m {
        MergeSumsUp(m[k].facts, before, s);
      } else {
        MergeSumsUp(s.facts, before, s);
      }
    }
  }

  /** The key as the source writes it: the fields joined by NUL. */
  function KeyText(k: Key): Str {
    k.list + [0] + (k.component + [0] + (k.kind + [0] + (k.value + [0] + (k.source + [0] + k.revision))))
  }

  predicate KeyNulFree(k: Key) {
    Free(k.list, 0) && Free(k.component, 0) && Free(k.kind, 0) && Free(k.value, 0) && Free(k.source, 0)
  }

  lemma KeyTextNames(a: Key, b: Key)
    requires KeyNulFree(a) && KeyNulFree(b) && KeyText(a) == KeyText(b)
    ensures a == b
  {
    hide Free;
    var a3, b3 := a.source + [0] + a.revision, b.source + [0] + b.revision;
    var a2, b2 := a.value + [0] + a3, b.value + [0] + b3;
    var a1, b1 := a.kind + [0] + a2, b.kind + [0] + b2;
    SplitUnique(a.list, a.component + [0] + a1, b.list, b.component + [0] + b1, 0);
    SplitUnique(a.component, a1, b.component, b1, 0);
    SplitUnique(a.kind, a2, b.kind, b2, 0);
    SplitUnique(a.value, a3, b.value, b3, 0);
    SplitUnique(a.source, a.revision, b.source, b.revision, 0);
  }

  predicate SightingBefore(a: Sighting, b: Sighting) {
    Less(KeyText(a.key), KeyText(b.key))
  }

  /** `out` holds exactly the sightings of `m`, ordered by their keys. */
  ghost predicate Lists(out: seq<Sighting>, m: map<Key, Sighting>) {
    && (forall k :: k in m ==> m[k].key == k)
    && (forall s :: s in out <==> s.key in m && m[s.key] == s)
    && |out| == |m|
    && SortedBy(out, SightingBefore)
  }

  /** `canonicalSightings`. */
  method CanonicalSightings(input: seq<Sighting>) returns (out: seq<Sighting>, m: map<Key, Sighting>)
    ensures Deduplicated(input, m) && Lists(out, m)
  {
    hide Deduplicated, SightingBefore, SortedBy;
    m := MergedSightings(input);
    assert forall k :: k in m ==> m[k].key == k by {
      KeyedByKey(input, m);
    }
    var rest := m.Keys;
    var values: seq<Sighting> := [];
    while rest != {}
      invariant rest <= m.Keys && |values| + |rest| == |m|
      invariant forall s :: s in values <==> s.key in m && s.key !in rest && m[s.key] == s
      decreases |rest|
    {
      var k :| k in rest;
      values := values + [m[k]];
      rest := rest - {k};
    }
    SightingOrder();
    ghost var perm;
    out, perm := SortFunc(values, SightingBefore);
    RearrangedMembers(perm, out, values);
    assert |out| == |values| by {
      SameSize(out, values);
    }
  }

  lemma KeyedByKey(input: seq<Sighting>, m: map<Key, Sighting>)
    requires Deduplicated(input, m)
    ensures forall k :: k in m ==> m[k].key == k
  {
  }

  lemma SightingOrder()
    ensures Transitive(SightingBefore) && forall s :: !SightingBefore(s, s)
  {
    hide Less, KeyText;
    LessIsStrict();
  }

  /** The sorted slice is determined by the merged sightings. */
  lemma ListedOnce(a: seq<Sighting>, b: seq<Sighting>, m: map<Key, Sighting>)
    requires Lists(a, m) && Lists(b, m) && forall k :: k in m ==> KeyNulFree(k)
    ensures a == b
  {
    hide Less, KeyText, KeyNulFree, Lists;
    StrictlyListed(a, m);
    StrictlyListed(b, m);
    LessIsStrict();
    forall s ensures s in a <==> s in b {
      ListedMembers(a, m, s);
      ListedMembers(b, m, s);
    }
    AscendingUnique(a, b, SightingBefore);
  }

  lemma ListedMembers(out: seq<Sighting>, m: map<Key, Sighting>, s: Sighting)
    requires Lists(out, m)
    ensures s in out <==> s.key in m && m[s.key] == s
  {
  }

  lemma StrictlyListed(out: seq<Sighting>, m: map<Key, Sighting>)
    requires Lists(out, m) && forall k :: k in m ==> KeyNulFree(k)
    ensures Ascending(out, SightingBefore)
  {
    hide Less, KeyText, KeyNulFree;
    ListedDistinct(out, m);
    forall i, j | 0 <= i < j < |out| ensures SightingBefore(out[i], out[j]) {
      assert out[i] in out && out[j] in out;
      if KeyText(out[i].key) == KeyText(out[j].key) {
        KeyTextNames(out[i].key, out[j].key);
      }
      LessTotal(KeyText(out[i].key), KeyText(out[j].key));
    }
  }

  /** As many places as keys, so no key twice. */
  lemma ListedDistinct(out: seq<Sighting>, m: map<Key, Sighting>)
    requires (forall s :: s in out <==> s.key in m && m[s.key] == s) && |out| == |m|
    requires forall k :: k in m ==> m[k].key == k
    ensures forall i, j :: 0 <= i < j < |out| ==> out[i].key != out[j].key
  {
    var keys := set s | s in out :: s.key;
    forall k | k in m ensures k in keys {
      assert m[k] in out;
    }
    assert keys == m.Keys;
    forall i, j | 0 <= i < j < |out| && out[i].key == out[j].key ensures false {
      var fewer := out[..j] + out[j + 1..];
      assert fewer[i] == out[i];
      forall s | s in out ensures exists x :: x in fewer && x.key == s.key {
        var k :| 0 <= k < |out| && out[k] == s;
        assert fewer[if k < j then k else if k == j then i else k - 1].key == s.key;
      }
      assert (set s | s in fewer :: s.key) == keys;
      FewKeys(fewer);
    }
  }

  lemma {:induction false} FewKeys(s: seq<Sighting>)
    ensures |set x | x in s :: x.key| <= |s|
  {
    if s != [] {
      var n := |s| - 1;
      FewKeys(s[..n]);
      assert s == s[..n] + [s[n]];
      assert (set x | x in s :: x.key) == (set x | x in s[..n] :: x.key) + {s[n].key};
    }
  }

  method MergedSightings(input: seq<Sighting>) returns (m: map<Key, Sighting>)
    ensures Deduplicated(input, m)
  {
    hide Deduplicated;
    m := map[];
    NoSightings();
    assert input[..0] == [];
    for i := 0 to |input|
      invariant Deduplicated(input[..i], m)
    {
      DeduplicatedStep(input, i, m);
      var s := input[i];
      if s.key in m {
        m := m[s.key := m[s.key].(facts := Merged(m[s.key].facts, s.facts))];
        continue;
      }
      m := m[s.key := s];
    }
    assert input[..|input|] == input;
  }

  lemma NoSightings()
    ensures Deduplicated([], map[])
  {
  }

  /** `SightingFingerprints`: sorted in the source, so determined by their set. */
  ghost function Prints(m: map<Key, Sighting>): set<Print> {
    set k | k in m :: Print(k, m[k].origin, m[k].facts.trusted)
  }

  /** Sightings of one observation come from one class of source. */
  ghost predicate OriginsAgree(input: seq<Sighting>) {
    forall a, b :: a in input && b in input && a.key == b.key ==> a.origin == b.origin
  }

  /** With agreeing origins the merged sightings, and so their fingerprints, do not
      depend on the order they arrived in. */
  lemma SightingsIgnoreOrder(a: seq<Sighting>, b: seq<Sighting>, m: map<Key, Sighting>, n: map<Key, Sighting>)
    requires OriginsAgree(a) && multiset(a) == multiset(b)
    requires Deduplicated(a, m) && Deduplicated(b, n)
    ensures m == n && Prints(m) == Prints(n)
  {
    hide SumsUp;
    forall s ensures s in a <==> s in b {
      assert s in a <==> s in multiset(a);
      assert s in b <==> s in multiset(b);
    }
    forall k ensures k in m <==> k in n ensures k in m ==> m[k] == n[k] {
      FirstOriginOf(a, k);
      FirstOriginOf(b, k);
      if k in m && k in n {
        SumIsUnique(m[k].facts, n[k].facts, a, b, k);
      }
    }
  }

  /** Nor does the sorted slice of them. */
  lemma SlicesIgnoreOrder(a: seq<Sighting>, b: seq<Sighting>, m: map<Key, Sighting>, n: map<Key, Sighting>,
      x: seq<Sighting>, y: seq<Sighting>)
    requires OriginsAgree(a) && multiset(a) == multiset(b) && forall s :: s in a ==> KeyNulFree(s.key)
    requires Deduplicated(a, m) && Deduplicated(b, n) && Lists(x, m) && Lists(y, n)
    ensures x == y
  {
    hide SumsUp, Lists, KeyNulFree;
    SightingsIgnoreOrder(a, b, m, n);
    forall k | k in m ensures KeyNulFree(k) {
      FirstOriginOf(a, k);
    }
    ListedOnce(x, y, m);
  }

  lemma FirstIsFirst(s: Sighting, rest: seq<Sighting>)
    ensures FirstOrigin([s] + rest, s.key) == Some(s.origin)
    decreases |rest|
  {
    var all := [s] + rest;
    if rest == [] {
      assert all[..0] == [];
    } else {
      assert all[..|all| - 1] == [s] + rest[..|rest| - 1];
      FirstIsFirst(s, rest[..|rest| - 1]);
    }
  }

  /** And only then: where two sightings of one observation disagree, letting one or
      the other arrive first changes the fingerprints. */
  lemma DisagreementShows(rest: seq<Sighting>, x: Sighting, y: Sighting, m: map<Key, Sighting>, n: map<Key, Sighting>)
    requires x.key == y.key && x.origin != y.origin
    requires Deduplicated([x, y] + rest, m) && Deduplicated([y, x] + rest, n)
    ensures Prints(m) != Prints(n)
  {
    hide SumsUp;
    assert [x, y] + rest == [x] + ([y] + rest) && [y, x] + rest == [y] + ([x] + rest);
    FirstIsFirst(x, [y] + rest);
    FirstIsFirst(y, [x] + rest);
    var k := x.key;
    assert m[k].origin == x.origin && n[k].origin == y.origin;
    assert Print(k, m[k].origin, m[k].facts.trusted) in Prints(m);
    assert forall p :: p in Prints(n) && p.key == k ==> p.origin == y.origin;
  }

  // -------------------------------------------------------------- the payload

  /** The parts of the hash payload that come from collections. Fingerprints of
      relations are sorted too. */
  datatype Payload = Payload(rules: seq<Rule>, sightings: set<Print>, relations: set<Str>)

  datatype Plan = Plan(rules: seq<Rule>, sightings: seq<Sighting>, relations: seq<Str>)

  ghost predicate IsPayload(plan: Plan, payload: Payload) {
    && (exists sorted: seq<Rule> ::
      multiset(sorted) == multiset(plan.rules) && SortedByTuple(sorted) && payload.rules == MapHashed(sorted))
    && (exists m: map<Key, Sighting> :: Deduplicated(plan.sightings, m) && payload.sightings == Prints(m))
    && payload.relations == Elements(plan.relations)
  }

  lemma TupleOrderIsStrict()
    ensures Transitive(TupleBefore) && forall r :: !TupleBefore(r, r)
  {
    hide Less;
    forall a, b, c | TupleBefore(a, b) && TupleBefore(b, c) ensures TupleBefore(a, c) {
      FieldsTransitive(a.kind, b.kind, c.kind);
      FieldsTransitive(a.value, b.value, c.value);
      FieldsTransitive(a.list, b.list, c.list);
      FieldsTransitive(a.component, b.component, c.component);
      FieldsTransitive(a.origin, b.origin, c.origin);
    }
    forall r ensures !TupleBefore(r, r) {
      LessIrreflexive(r.kind);
      LessIrreflexive(r.value);
      LessIrreflexive(r.list);
      LessIrreflexive(r.component);
      LessIrreflexive(r.origin);
    }
  }

  lemma FieldsTransitive(a: Str, b: Str, c: Str)
    ensures Less(a, b) && Less(b, c) ==> Less(a, c)
  {
    if Less(a, b) && Less(b, c) {
      LessTransitive(a, b, c);
    }
  }

  /** What `SemanticHash` encodes. The sightings are fingerprinted afterwards. */
  method PayloadOf(plan: Plan)
    returns (rules: seq<Rule>, sightings: seq<Sighting>, merged: map<Key, Sighting>, relations: seq<Str>)
    ensures IsPayload(plan, Payload(rules, Prints(merged), Elements(relations)))
    ensures Lists(sightings, merged)
  {
    hide TupleBefore, Deduplicated, Prints, Hashed, SortedBy, Lists;
    TupleOrderIsStrict();
    ghost var perm;
    var sorted: seq<Rule>;
    sorted, perm := SortFunc(plan.rules, TupleBefore);
    rules := MapHashed(sorted);
    sightings, merged := CanonicalSightings(plan.sightings);
    relations := Stable(plan.relations);
    StableSorts(plan.relations);
  }

  /** The hash does not depend on the order of rules, sightings or relations. */
  lemma PayloadIgnoresOrder(p: Plan, q: Plan, x: Payload, y: Payload)
    requires AllNulFree(p.rules) && RulesAgree(p.rules) && OriginsAgree(p.sightings)
    requires multiset(p.rules) == multiset(q.rules) && multiset(p.sightings) == multiset(q.sightings)
    requires multiset(p.relations) == multiset(q.relations)
    requires IsPayload(p, x) && IsPayload(q, y)
    ensures x == y
  {
    hide NulFree, RulesAgree, OriginsAgree, Deduplicated, Prints, MapHashed, SortedByTuple;
    var a: seq<Rule> :| multiset(a) == multiset(p.rules) && SortedByTuple(a) && x.rules == MapHashed(a);
    var b: seq<Rule> :| multiset(b) == multiset(q.rules) && SortedByTuple(b) && y.rules == MapHashed(b);
    RulesIgnoreOrder(p.rules, a, b);
    var m :| Deduplicated(p.sightings, m) && x.sightings == Prints(m);
    var n :| Deduplicated(q.sightings, n) && y.sightings == Prints(n);
    SightingsIgnoreOrder(p.sightings, q.sightings, m, n);
    forall r ensures r in p.relations <==> r in q.relations {
      assert r in p.relations <==> r in multiset(p.relations);
      assert r in q.relations <==> r in multiset(q.relations);
    }
  }

  lemma {:induction false} SomeMerged(input: seq<Sighting>) returns (m: map<Key, Sighting>)
    ensures Deduplicated(input, m)
  {
    hide Deduplicated, Merged;
    if input == [] {
      NoSightings();
      m := map[];
    } else {
      var n := |input| - 1;
      var s := input[n];
      var rest := SomeMerged(input[..n]);
      DeduplicatedStep(input, n, rest);
      assert input[..n + 1] == input;
      m := rest[s.key := if s.key in rest then rest[s.key].(facts := Merged(rest[s.key].facts, s.facts)) else s];
    }
  }

  lemma SomePayload(plan: Plan) returns (x: Payload, m: map<Key, Sighting>)
    ensures IsPayload(plan, x) && Deduplicated(plan.sightings, m) && x.sightings == Prints(m)
  {
    hide TupleBefore, Deduplicated, Prints, Hashed, SortedBy;
    TupleOrderIsStrict();
    var sorted := SomeSorted(plan.rules, TupleBefore);
    m := SomeMerged(plan.sightings);
    x := Payload(MapHashed(sorted), Prints(m), Elements(plan.relations));
  }

  /** Whatever order its sightings arrive in, the plan has one payload. */
  ghost predicate OnePayload(p: Plan) {
    forall a, b, x, y ::
      multiset(a) == multiset(p.sightings) == multiset(b) && IsPayload(p.(sightings := a), x) &&
      IsPayload(p.(sightings := b), y)
      ==> x == y
  }

  lemma Reordered(p: Plan, a: seq<Sighting>)
    requires multiset(a) == multiset(p.sightings) && OriginsAgree(p.sightings)
    ensures OriginsAgree(a)
  {
    forall s | s in a ensures s in p.sightings {
      assert s in multiset(a);
    }
  }

  lemma TakenOut<T>(s: seq<T>, x: T) returns (rest: seq<T>)
    requires x in multiset(s)
    ensures multiset(s) == multiset{x} + multiset(rest)
  {
    var i :| 0 <= i < |s| && s[i] == x;
    rest := s[..i] + s[i + 1..];
    assert s == s[..i] + [x] + s[i + 1..];
  }

  /** Two different members of a sequence can be moved to the front. */
  lemma TwoInFront<T>(s: seq<T>, x: T, y: T) returns (rest: seq<T>)
    requires x in s && y in s && x != y
    ensures multiset([x, y] + rest) == multiset(s) == multiset([y, x] + rest)
  {
    assert x in multiset(s) && y in multiset(s);
    var most := TakenOut(s, x);
    rest := TakenOut(most, y);
  }

  /** The hash ignores the order of sightings exactly when sightings of one observation
      agree on their source class. */
  lemma OnePayloadIff(p: Plan)
    requires AllNulFree(p.rules) && RulesAgree(p.rules)
    ensures OnePayload(p) <==> OriginsAgree(p.sightings)
  {
    hide NulFree, AllNulFree, RulesAgree, IsPayload, Deduplicated, Prints;
    if OriginsAgree(p.sightings) {
      forall a, b, x, y | multiset(a) == multiset(p.sightings) == multiset(b)
        && IsPayload(p.(sightings := a), x) && IsPayload(p.(sightings := b), y)
        ensures x == y
      {
        Reordered(p, a);
        PayloadIgnoresOrder(p.(sightings := a), p.(sightings := b), x, y);
      }
    } else {
      var s, t :| s in p.sightings && t in p.sightings && s.key == t.key && s.origin != t.origin;
      var rest := TwoInFront(p.sightings, s, t);
      var x, m := SomePayload(p.(sightings := [s, t] + rest));
      var y, n := SomePayload(p.(sightings := [t, s] + rest));
      DisagreementShows(rest, s, t, m, n);
    }
  }

  // -------------------------------------------------------------- what the payload tells apart

  /** Everything that two rules have in common when they hash alike. */
  ghost predicate SameContent(a: Rule, b: Rule) {
    && a.kind == b.kind && a.value == b.value && a.list == b.list && a.component == b.component
    && a.origin == b.origin && a.action == b.action
    && Elements(a.labels) == Elements(b.labels) && Elements(a.reasons) == Elements(b.reasons)
    && Elements(a.provenance) == Elements(b.provenance)
  }

  lemma HashedTellsApart(a: Rule, b: Rule)
    ensures Hashed(a) == Hashed(b) <==> SameContent(a, b)
  {
    hide Stable, Elements;
    StableTellsApart(a.labels, b.labels);
    StableTellsApart(a.reasons, b.reasons);
    StableTellsApart(a.provenance, b.provenance);
  }

  lemma StableTellsApart(a: seq<Str>, b: seq<Str>)
    ensures Stable(a) == Stable(b) <==> Elements(a) == Elements(b)
  {
    StableSorts(a);
    StableSorts(b);
    if Elements(a) == Elements(b) {
      StableIgnoresOrder(a, b);
    }
  }

  /** The rules of one plan, matched one to one with rules of the same content. */
  ghost predicate Matched(perm: seq<nat>, a: seq<Rule>, b: seq<Rule>) {
    && |perm| == |a| == |b|
    && (forall i :: 0 <= i < |a| ==> perm[i] < |b| && SameContent(a[i], b[perm[i]]))
    && (forall i, j :: 0 <= i < j < |perm| ==> perm[i] != perm[j])
  }

  ghost predicate Locates<T>(perm: seq<nat>, a: seq<T>, b: seq<T>) {
    && |perm| == |a| == |b|
    && (forall i :: 0 <= i < |a| ==> perm[i] < |b| && a[i] == b[perm[i]])
    && (forall i, j :: 0 <= i < j < |perm| ==> perm[i] != perm[j])
  }

  ghost function Shifted(s: seq<nat>, k: nat): seq<nat> {
    seq(|s|, i requires 0 <= i < |s| => if s[i] < k then s[i] else s[i] + 1)
  }

  lemma LocatesHead<T>(inner: seq<nat>, a: seq<T>, b: seq<T>, k: nat)
    requires a != [] && k < |b| && b[k] == a[0] && Locates(inner, a[1..], b[..k] + b[k + 1..])
    ensures Locates([k] + Shifted(inner, k), a, b)
  {
    var perm, rest := [k] + Shifted(inner, k), b[..k] + b[k + 1..];
    forall i | 0 <= i < |a| ensures perm[i] < |b| && a[i] == b[perm[i]] && (i > 0 ==> perm[i] != k) {
      if i > 0 {
        assert a[i] == a[1..][i - 1] == rest[inner[i - 1]];
      }
    }
    forall i, j | 0 <= i < j < |perm| ensures perm[i] != perm[j] {
      if i > 0 {
        assert inner[i - 1] != inner[j - 1];
      }
    }
  }

  /** Where each rule of one arrangement stands in the other. */
  lemma {:induction false} Positions<T>(a: seq<T>, b: seq<T>) returns (perm: seq<nat>)
    requires multiset(a) == multiset(b)
    ensures Locates(perm, a, b)
    decreases |a|
  {
    hide Locates, Shifted;
    SameSize(a, b);
    if a == [] {
      perm := [];
      NothingToLocate(a, b);
    } else {
      assert a[0] in multiset(b);
      var k :| 0 <= k < |b| && b[k] == a[0];
      var rest := b[..k] + b[k + 1..];
      assert b == b[..k] + [b[k]] + b[k + 1..];
      WithoutHead(a);
      assert multiset(b) == multiset{a[0]} + multiset(rest);
      Cancel(a[0], multiset(a[1..]), multiset(rest));
      var inner := Positions(a[1..], rest);
      LocatesHead(inner, a, b, k);
      perm := [k] + Shifted(inner, k);
    }
  }

  lemma NothingToLocate<T>(a: seq<T>, b: seq<T>)
    requires a == [] && b == []
    ensures Locates([], a, b)
  {
  }

  lemma Composed(a: seq<Rule>, x: seq<Rule>, y: seq<Rule>, b: seq<Rule>, p: seq<nat>, q: seq<nat>)
    returns (perm: seq<nat>)
    requires MapHashed(x) == MapHashed(y)
    requires Locates(p, a, x) && Locates(q, y, b)
    ensures Matched(perm, a, b)
  {
    hide Hashed, SameContent;
    assert |MapHashed(x)| == |x| && |MapHashed(y)| == |y|;
    perm := seq(|a|, i requires 0 <= i < |a| => q[p[i]]);
    forall i | 0 <= i < |a| ensures SameContent(a[i], b[perm[i]]) {
      assert MapHashed(x)[p[i]] == Hashed(x[p[i]]) && MapHashed(y)[p[i]] == Hashed(y[p[i]]);
      HashedTellsApart(x[p[i]], y[p[i]]);
    }
  }

  ghost predicate Trusted(input: seq<Sighting>, k: Key) {
    exists s :: s in input && s.key == k && s.facts.trusted
  }

  /** What the hash is for: equal payloads come from plans whose rules match one to one
      in kind, value, list, component, origin, action and in their sets of labels,
      reasons and provenance, which have the same relations, and in which the same
      observations were made, from the same class of source and with the same trust. */
  lemma PayloadTellsApart(p: Plan, q: Plan, x: Payload) returns (perm: seq<nat>)
    requires IsPayload(p, x) && IsPayload(q, x)
    ensures Matched(perm, p.rules, q.rules)
    ensures Elements(p.relations) == Elements(q.relations)
    ensures forall k :: FirstOrigin(p.sightings, k) == FirstOrigin(q.sightings, k)
    ensures forall k :: Trusted(p.sightings, k) <==> Trusted(q.sightings, k)
  {
    hide Deduplicated, SortedByTuple, MapHashed, Elements, Locates, Prints, Matched, FirstOrigin, Trusted;
    var a: seq<Rule> :| multiset(a) == multiset(p.rules) && SortedByTuple(a) && x.rules == MapHashed(a);
    var b: seq<Rule> :| multiset(b) == multiset(q.rules) && SortedByTuple(b) && x.rules == MapHashed(b);
    var there := Positions(p.rules, a);
    var back := Positions(b, q.rules);
    SameHashedSize(a, b);
    perm := Composed(p.rules, a, b, q.rules, there, back);
    var m :| Deduplicated(p.sightings, m) && x.sightings == Prints(m);
    var n :| Deduplicated(q.sightings, n) && x.sightings == Prints(n);
    PrintsTellApart(m, n);
    forall k
      ensures FirstOrigin(p.sightings, k) == FirstOrigin(q.sightings, k)
      ensures Trusted(p.sightings, k) <==> Trusted(q.sightings, k)
    {
      MergedObservation(p.sightings, m, k);
      MergedObservation(q.sightings, n, k);
    }
  }

  lemma MergedObservation(input: seq<Sighting>, m: map<Key, Sighting>, k: Key)
    requires Deduplicated(input, m)
    ensures FirstOrigin(input, k) == if k in m then Some(m[k].origin) else None
    ensures Trusted(input, k) <==> k in m && m[k].facts.trusted
  {
    FirstOriginOf(input, k);
  }

  lemma SameHashedSize(a: seq<Rule>, b: seq<Rule>)
    requires MapHashed(a) == MapHashed(b)
    ensures |a| == |b|
  {
    assert |MapHashed(a)| == |a| && |MapHashed(b)| == |b|;
  }

  lemma PrintsTellApart(m: map<Key, Sighting>, n: map<Key, Sighting>)
    requires Prints(m) == Prints(n)
    ensures m.Keys == n.Keys
    ensures forall k :: k in m ==> m[k].origin == n[k].origin && m[k].facts.trusted == n[k].facts.trusted
  {
    forall k ensures k in m ==> k in n && m[k].origin == n[k].origin && m[k].facts.trusted == n[k].facts.trusted {
      if k in m {
        assert Print(k, m[k].origin, m[k].facts.trusted) in Prints(n);
      }
    }
    forall k ensures k in n ==> k in m {
      if k in n {
        assert Print(k, n[k].origin, n[k].facts.trusted) in Prints(m);
      }
    }
  }
}
