/** Which lists a profile publishes and in which order, over the shipped catalog,
    over the operator's overlay, and over the catalog an import is about to
    install. internal/application/publication.go, categories.go, config_transfer.go. */
module Composition {
  import opened Text
  import opened RouteLabels
  import opened Sorting
  import opened Wrappers

  datatype Verdict = Added | Removed

  /** What a category's lists are: shipped members, some removed, others added. */
  datatype Catalog = Catalog(lists: set<Str>, local: set<Str>, categories: map<Str, seq<Str>>)

  datatype Overlay = Overlay(customLists: set<Str>, customCategories: set<Str>, membership: map<(Str, Str), Verdict>,
    removedLists: set<Str>, removedCategories: set<Str>)

  // `domains` holds the profile's own domains for some of its lists.
  datatype Choice = Choice(lists: seq<Str>, categories: seq<Str>, exclusions: seq<Str>, priority: seq<Str>,
    domains: map<Str, seq<Str>>)

  /** `NormalizeDomain`: the canonical form of a domain name, or a refusal. */
  type Grammar = Str -> Option<Str>

  const MAX_ITEMS := 128
  const MAX_DOMAINS := 64
  const MAX_PROFILE_DOMAINS := 512

  predicate Slug(s: Str) {
    && 0 < |s| <= 63 && 97 <= s[0] <= 122 && s[|s| - 1] != 45
    && forall i :: 1 <= i < |s| ==> 97 <= s[i] <= 122 || 48 <= s[i] <= 57 || s[i] == 45
  }

  const LETTERS := set b: Byte | 97 <= b < 123
  const DIGITS := set b: Byte | 48 <= b < 58

  /** A slug is made of letters, digits and hyphens, starts with a letter and does not
      end with a hyphen. */
  lemma SlugLetters(s: Str)
    ensures Slug(s) <==>
      0 < |s| < 64 && s[0] in LETTERS && s[|s| - 1] in LETTERS + DIGITS && Elements(s) <= LETTERS + DIGITS + {0x2D}
  {
    if 0 < |s| < 64 && Elements(s) <= LETTERS + DIGITS + {0x2D} {
      forall i | 0 <= i < |s| ensures s[i] in LETTERS + DIGITS + {0x2D} {
        assert s[i] in Elements(s);
      }
    }
  }

  predicate Distinct(s: seq<Str>) {
    forall i, j :: 0 <= i < j < |s| ==> s[i] != s[j]
  }

  // -------------------------------------------------------------- priority

  ghost function Filter(s: seq<Str>, keep: set<Str>): seq<Str> {
    if s == [] then []
    else Filter(s[..|s| - 1], keep) + if s[|s| - 1] in keep then [s[|s| - 1]] else []
  }

  lemma {:induction false} FilterKeeps(s: seq<Str>, keep: set<Str>)
    ensures Elements(Filter(s, keep)) == Elements(s) * keep
    ensures Distinct(s) ==> Distinct(Filter(s, keep))
    ensures Elements(s) <= keep ==> Filter(s, keep) == s
  {
    if s != [] {
      var n := |s| - 1;
      FilterKeeps(s[..n], keep);
      assert s == s[..n] + [s[n]];
      assert Elements(s) == Elements(s[..n]) + {s[n]};
      var f := Filter(s[..n], keep);
      assert Elements(f + [s[n]]) == Elements(f) + {s[n]};
      assert f + [] == f;
      if s[n] in keep {
        assert Elements(s) * keep == Elements(s[..n]) * keep + {s[n]};
      } else {
        assert Elements(s) * keep == Elements(s[..n]) * keep;
      }
      if Distinct(s) {
        assert s[n] !in Elements(s[..n]);
        assert forall i :: 0 <= i < |f| ==> f[i] in Elements(f);
      }
    }
  }

  /** What is kept stays in order. */
  lemma {:induction false} FilterInOrder(s: seq<Str>, keep: set<Str>, i: nat, j: nat)
    requires i < j < |s| && s[i] in keep && s[j] in keep
    ensures Follows(Filter(s, keep), s[i], s[j])
  {
    var n := |s| - 1;
    var f, front := Filter(s, keep), Filter(s[..n], keep);
    assert f == front + if s[n] in keep then [s[n]] else [];
    if j < n {
      FilterInOrder(s[..n], keep, i, j);
      var a, b :| 0 <= a < b < |front| && front[a] == s[i] && front[b] == s[j];
      assert f[a] == s[i] && f[b] == s[j];
    } else {
      FilterKeeps(s[..n], keep);
      assert s[..n][i] in Elements(front);
      var a :| 0 <= a < |front| && front[a] == s[i];
      assert f[a] == s[i] && f[|front|] == s[j];
    }
  }

  /** Somewhere `x` comes before `y`. */
  predicate Follows(s: seq<Str>, x: Str, y: Str) {
    exists a, b :: 0 <= a < b < |s| && s[a] == x && s[b] == y
  }

  lemma {:induction false} FilterIncreases(s: seq<Str>, keep: set<Str>)
    requires Increasing(s)
    ensures Increasing(Filter(s, keep))
  {
    hide Less;
    if s != [] {
      var n := |s| - 1;
      FilterIncreases(s[..n], keep);
      FilterKeeps(s[..n], keep);
      forall i | 0 <= i < |Filter(s[..n], keep)| ensures Less(Filter(s[..n], keep)[i], s[n]) {
        assert Filter(s[..n], keep)[i] in Elements(Filter(s[..n], keep));
        var j :| 0 <= j < n && s[j] == Filter(s[..n], keep)[i];
      }
    }
  }

  ghost predicate Requestable(requested: seq<Str>, available: set<Str>) {
    Distinct(requested) && forall i :: 0 <= i < |requested| ==> Slug(requested[i]) && requested[i] in available
  }

  ghost function Normalized(requested: seq<Str>, resolved: seq<Str>): Option<seq<Str>> {
    if Requestable(requested, Elements(resolved))
      then Some(requested + Filter(resolved, Elements(resolved) - Elements(requested)))
      else None
  }

  /** `normalizePriority`. */
  method NormalizePriority(requested: seq<Str>, resolved: seq<Str>) returns (r: Option<seq<Str>>)
    ensures r == Normalized(requested, resolved)
  {
    var available, seen: set<Str> := {}, {};
    for i := 0 to |resolved|
      invariant available == Elements(resolved[..i])
    {
      assert resolved[..i + 1] == resolved[..i] + [resolved[i]];
      available := available + {resolved[i]};
    }
    assert resolved[..|resolved|] == resolved;
    var ordered: seq<Str> := [];
    for i := 0 to |requested|
      invariant ordered == requested[..i] && seen == Elements(ordered) && Requestable(ordered, available)
    {
      if !Slug(requested[i]) || requested[i] !in available || requested[i] in seen {
        return None;
      }
      assert requested[..i + 1] == requested[..i] + [requested[i]];
      seen := seen + {requested[i]};
      ordered := ordered + [requested[i]];
    }
    assert requested[..|requested|] == requested;
    for i := 0 to |resolved|
      invariant ordered == requested + Filter(resolved[..i], available - seen)
    {
      assert resolved[..i + 1][..i] == resolved[..i];
      assert resolved[i] in available;
      if resolved[i] !in seen {
        ordered := ordered + [resolved[i]];
      }
    }
    return Some(ordered);
  }

  /** A normalized priority is a complete, duplicate-free order of exactly what
      resolves, and starts with what was asked for. */
  lemma NormalizedIsComplete(requested: seq<Str>, resolved: seq<Str>)
    requires Distinct(resolved) && Requestable(requested, Elements(resolved))
    ensures var p := Normalized(requested, resolved).value;
      Distinct(p) && Elements(p) == Elements(resolved) && requested <= p
  {
    var rest := Filter(resolved, Elements(resolved) - Elements(requested));
    FilterKeeps(resolved, Elements(resolved) - Elements(requested));
    assert Elements(requested + rest) == Elements(requested) + Elements(rest);
    forall i, j | 0 <= i < |requested| && 0 <= j < |rest| ensures requested[i] != rest[j] {
      assert requested[i] in Elements(requested) && rest[j] in Elements(rest);
    }
  }

  /** What was not asked for follows in the order in which it resolved. */
  lemma RestInOrder(requested: seq<Str>, resolved: seq<Str>, i: nat, j: nat)
    requires Requestable(requested, Elements(resolved))
    requires i < j < |resolved| && resolved[i] !in requested && resolved[j] !in requested
    ensures Follows(Normalized(requested, resolved).value, resolved[i], resolved[j])
  {
    var keep := Elements(resolved) - Elements(requested);
    var rest := Filter(resolved, keep);
    var p := requested + rest;
    assert resolved[i] in keep && resolved[j] in keep;
    FilterInOrder(resolved, keep, i, j);
    var a, b :| 0 <= a < b < |rest| && rest[a] == resolved[i] && rest[b] == resolved[j];
    assert p[|requested| + a] == resolved[i] && p[|requested| + b] == resolved[j];
  }

  /** A complete order is not reordered, whatever order it is resolved in. */
  lemma CompleteIsFixed(p: seq<Str>, resolved: seq<Str>)
    requires Requestable(p, Elements(resolved)) && Elements(p) == Elements(resolved)
    ensures Normalized(Filter(p, Elements(resolved)), resolved) == Some(p)
  {
    hide Slug, Filter, Elements;
    FilterKeeps(p, Elements(resolved));
    assert Elements(resolved) - Elements(p) == {};
    FilterNothing(resolved);
    assert p + [] == p;
  }

  lemma {:induction false} FilterNothing(s: seq<Str>)
    ensures Filter(s, {}) == []
  {
    if s != [] {
      FilterNothing(s[..|s| - 1]);
    }
  }

  /** `filterKnownPriority`. */
  method FilterKnownPriority(priority: seq<Str>, resolved: seq<Str>) returns (kept: seq<Str>)
    ensures kept == Filter(priority, Elements(resolved))
  {
    kept := [];
    for i := 0 to |priority|
      invariant kept == Filter(priority[..i], Elements(resolved))
    {
      assert priority[..i + 1][..i] == priority[..i];
      if priority[i] in resolved {
        kept := kept + [priority[i]];
      }
    }
    assert priority[..|priority|] == priority;
  }

  // -------------------------------------------------------------- domains of a profile

  /** Every domain with the list it is for. */
  ghost function Pairs(domains: map<Str, seq<Str>>): set<(Str, Str)> {
    set l, d | l in domains && d in domains[l] :: (l, d)
  }

  ghost predicate Grammatical(values: seq<Str>, grammar: Grammar) {
    forall v :: v in values ==> grammar(v).Some?
  }

  ghost function CanonicalSet(values: seq<Str>, grammar: Grammar): set<Str> {
    set v | v in values && grammar(v).Some? :: grammar(v).value
  }

  /** One list of a profile may have these domains of its own. */
  ghost predicate Overridable(l: Str, values: seq<Str>, resolved: set<Str>, grammar: Grammar) {
    Slug(l) && l in resolved && |values| <= MAX_DOMAINS && Grammatical(values, grammar)
  }

  ghost function CanonicalDomains(requested: map<Str, seq<Str>>, grammar: Grammar): map<Str, seq<Str>> {
    map l | l in requested :: Sorted(CanonicalSet(requested[l], grammar))
  }

  /** Domains of a profile are for lists that resolve, of valid names, and not too
      many; then they are kept in canonical form. */
  ghost function NormalDomains(requested: map<Str, seq<Str>>, resolved: set<Str>, grammar: Grammar)
    : Option<map<Str, seq<Str>>>
  {
    var normal := CanonicalDomains(requested, grammar);
    if |requested| <= MAX_ITEMS && (forall l :: l in requested ==> Overridable(l, requested[l], resolved, grammar))
       && |Pairs(normal)| <= MAX_PROFILE_DOMAINS
    then Some(normal) else None
  }

  method CanonicalValues(values: seq<Str>, grammar: Grammar) returns (r: Option<seq<Str>>)
    ensures r.Some? <==> Grammatical(values, grammar)
    ensures r.Some? ==> r.value == Sorted(CanonicalSet(values, grammar))
  {
    hide Sorted, Stable;
    var domains: seq<Str> := [];
    for i := 0 to |values|
      invariant Grammatical(values[..i], grammar) && Elements(domains) == CanonicalSet(values[..i], grammar)
    {
      assert values[..i + 1] == values[..i] + [values[i]];
      var normalized := grammar(values[i]);
      if normalized.None? {
        assert values[i] in values;
        return None;
      }
      MoreElements(domains, normalized.value);
      assert CanonicalSet(values[..i + 1], grammar) == CanonicalSet(values[..i], grammar) + {normalized.value};
      domains := domains + [normalized.value];
    }
    assert values[..|values|] == values;
    SortedIsStable(domains);
    return Some(Stable(domains));
  }

  lemma {:induction false} PairedWith(l: Str, s: set<Str>)
    ensures |set d | d in s :: (l, d)| == |s|
    decreases |s|
  {
    if d :| d in s {
      PairedWith(l, s - {d});
      var pairs := set x | x in s - {d} :: (l, x);
      assert (set x | x in s :: (l, x)) == pairs + {(l, d)};
    } else {
      assert (set x | x in s :: (l, x)) == {};
    }
  }

  lemma PairsWith(domains: map<Str, seq<Str>>, l: Str, values: seq<Str>)
    requires l !in domains
    ensures var more := set d | d in Elements(values) :: (l, d);
      Pairs(domains[l := values]) == Pairs(domains) + more && Pairs(domains) !! more
  {
  }

  lemma OneMoreList(domains: map<Str, seq<Str>>, l: Str, values: seq<Str>)
    requires l !in domains && Text.Increasing(values)
    ensures |Pairs(domains[l := values])| == |Pairs(domains)| + |values|
  {
    hide Text.Increasing, Pairs;
    PairedWith(l, Elements(values));
    IncreasingCount(values);
    PairsWith(domains, l, values);
  }

  lemma FewerPairs(part: map<Str, seq<Str>>, all: map<Str, seq<Str>>)
    requires forall l :: l in part ==> l in all && part[l] == all[l]
    ensures |Pairs(part)| <= |Pairs(all)|
  {
    SubsetSize(Pairs(part), Pairs(all));
  }

  /** `normalizeListDomains`, with the lists in any order. */
  method NormalizeListDomains(requested: map<Str, seq<Str>>, resolved: seq<Str>, grammar: Grammar)
    returns (r: Option<map<Str, seq<Str>>>)
    ensures r == NormalDomains(requested, Elements(resolved), grammar)
  {
    hide Pairs, Sorted, Slug, CanonicalSet, Grammatical;
    if |requested| > MAX_ITEMS {
      return None;
    }
    var normalized: map<Str, seq<Str>>, total: nat := map[], 0;
    ghost var normal := CanonicalDomains(requested, grammar);
    var rest := requested.Keys;
    NoPairs();
    while rest != {}
      invariant rest <= requested.Keys && normalized.Keys == requested.Keys - rest
      invariant total == |Pairs(normalized)| <= MAX_PROFILE_DOMAINS
      invariant forall l :: l in normalized ==>
        normalized[l] == normal[l] && Overridable(l, requested[l], Elements(resolved), grammar)
      decreases |rest|
    {
      var l :| l in rest;
      if !Slug(l) || l !in resolved || |requested[l]| > MAX_DOMAINS {
        return None;
      }
      var domains := CanonicalValues(requested[l], grammar);
      if domains.None? {
        return None;
      }
      SortedElements(CanonicalSet(requested[l], grammar));
      OneMoreList(normalized, l, domains.value);
      total := total + |domains.value|;
      normalized := normalized[l := domains.value];
      FewerPairs(normalized, normal);
      if total > MAX_PROFILE_DOMAINS {
        return None;
      }
      rest := rest - {l};
    }
    assert normalized == normal;
    return Some(normalized);
  }

  lemma NoPairs()
    ensures Pairs(map[]) == {}
  {
  }

  // -------------------------------------------------------------- the installed library

  predicate HasList(k: Catalog, v: Overlay, id: Str) {
    id !in v.removedLists && (id in k.lists || id in v.customLists)
  }

  predicate HasCategory(k: Catalog, v: Overlay, id: Str) {
    id !in v.removedCategories && (id in k.categories || id in v.customCategories)
  }

  /** What exists: everything shipped until it is removed, and what the operator adds. A
      removal takes away nothing else, and an addition does not bring back what was
      removed. */
  lemma ListsComeAndGo(k: Catalog, v: Overlay, id: Str, other: Str)
    ensures v.removedLists == v.customLists == {} ==> (HasList(k, v, other) <==> other in k.lists)
    ensures HasList(k, v.(removedLists := v.removedLists + {id}), other) <==> other != id && HasList(k, v, other)
    ensures HasList(k, v.(customLists := v.customLists + {id}), other) <==>
      HasList(k, v, other) || (other == id && id !in v.removedLists)
  {
  }

  lemma CategoriesComeAndGo(k: Catalog, v: Overlay, id: Str, other: Str)
    ensures v.removedCategories == v.customCategories == {} ==> (HasCategory(k, v, other) <==> other in k.categories)
    ensures HasCategory(k, v.(removedCategories := v.removedCategories + {id}), other) <==>
      other != id && HasCategory(k, v, other)
    ensures HasCategory(k, v.(customCategories := v.customCategories + {id}), other) <==>
      HasCategory(k, v, other) || (other == id && id !in v.removedCategories)
  {
  }

  function Base(k: Catalog, id: Str): seq<Str> {
    if id in k.categories then k.categories[id] else []
  }

  /** A category's lists: shipped ones not removed, and added ones, as far as they
      exist. */
  ghost function Members(k: Catalog, v: Overlay, id: Str): set<Str> {
    set l | l in k.lists + v.customLists && HasList(k, v, l) &&
      (if (id, l) in v.membership then v.membership[(id, l)].Added? else l in Base(k, id))
  }

  lemma PrefixElements(s: seq<Str>, i: nat)
    requires i < |s|
    ensures Elements(s[..i + 1]) == Elements(s[..i]) + {s[i]}
  {
    assert s[..i + 1] == s[..i] + [s[i]];
  }

  lemma MoreElements(s: seq<Str>, x: Str)
    ensures Elements(s + [x]) == Elements(s) + {x}
  {
  }

  /** The members before the library is asked which of them exist. */
  ghost function Claimed(k: Catalog, v: Overlay, id: Str): set<Str> {
    (set l | l in Base(k, id) && !((id, l) in v.membership && v.membership[(id, l)].Removed?)) +
    (set m | m in v.membership && m.0 == id && v.membership[m].Added? :: m.1)
  }

  lemma ClaimedMembers(k: Catalog, v: Overlay, id: Str)
    ensures Members(k, v, id) == set l | l in Claimed(k, v, id) && HasList(k, v, l)
  {
    forall l ensures l in Claimed(k, v, id) <==>
        (if (id, l) in v.membership then v.membership[(id, l)].Added? else l in Base(k, id)) {
      if (id, l) in v.membership && v.membership[(id, l)].Added? {
        assert (id, l).1 == l;
      }
      assert forall m | m in v.membership && m.0 == id && m.1 == l :: m == (id, l);
    }
  }

  ghost function Shipped(k: Catalog, v: Overlay, id: Str, base: seq<Str>): set<Str> {
    set l | l in base && !((id, l) in v.membership && v.membership[(id, l)].Removed?)
  }

  method ShippedMembers(k: Catalog, v: Overlay, id: Str) returns (members: seq<Str>)
    ensures Elements(members) == Shipped(k, v, id, Base(k, id))
  {
    members := [];
    var base := Base(k, id);
    for i := 0 to |base|
      invariant Elements(members) == Shipped(k, v, id, base[..i])
    {
      assert base[..i + 1] == base[..i] + [base[i]];
      MoreElements(members, base[i]);
      if (id, base[i]) in v.membership && v.membership[(id, base[i])].Removed? {
        assert Shipped(k, v, id, base[..i + 1]) == Shipped(k, v, id, base[..i]);
        continue;
      }
      assert Shipped(k, v, id, base[..i + 1]) == Shipped(k, v, id, base[..i]) + {base[i]};
      members := members + [base[i]];
    }
    assert base[..|base|] == base;
  }

  ghost function AddedAmong(v: Overlay, keys: set<(Str, Str)>): set<Str> {
    set m | m in keys && m in v.membership && v.membership[m].Added? :: m.1
  }

  lemma AddedMore(v: Overlay, keys: set<(Str, Str)>, m: (Str, Str))
    requires m in v.membership
    ensures AddedAmong(v, keys + {m}) == AddedAmong(v, keys) + (if v.membership[m].Added? then {m.1} else {})
  {
  }

  method AddedMembers(v: Overlay, id: Str) returns (members: seq<Str>)
    ensures Elements(members) == AddedAmong(v, set m | m in v.membership && m.0 == id)
  {
    hide AddedAmong, Elements;
    members := [];
    NoElements();
    var rest := set m | m in v.membership && m.0 == id;
    ghost var all, done := rest, {};
    NothingAdded(v);
    while rest != {}
      invariant rest <= all && done == all - rest && Elements(members) == AddedAmong(v, done)
      decreases |rest|
    {
      var m :| m in rest;
      AddedMore(v, done, m);
      MoreElements(members, m.1);
      if v.membership[m].Added? {
        members := members + [m.1];
      }
      rest := rest - {m};
      done := done + {m};
    }
    assert done == all;
  }

  lemma NothingAdded(v: Overlay)
    ensures AddedAmong(v, {}) == {}
  {
  }

  method ClaimedMembersOf(k: Catalog, v: Overlay, id: Str) returns (members: seq<Str>)
    ensures Elements(members) == Claimed(k, v, id)
  {
    var shipped := ShippedMembers(k, v, id);
    var added := AddedMembers(v, id);
    JoinedElements(shipped, added);
    members := shipped + added;
  }

  lemma NoElements()
    ensures Elements<Str>([]) == {}
  {
  }

  /** `mergedCategory`. */
  method MergedCategory(k: Catalog, v: Overlay, id: Str) returns (found: bool, lists: seq<Str>)
    ensures found == HasCategory(k, v, id)
    ensures found ==> lists == Sorted(Members(k, v, id))
  {
    hide Elements, Claimed, Members;
    found, lists := false, [];
    if id in v.removedCategories || (id !in k.categories && id !in v.customCategories) {
      return;
    }
    var members := ClaimedMembersOf(k, v, id);
    var known: seq<Str> := [];
    NoElements();
    assert members[..0] == [];
    for i := 0 to |members|
      invariant Elements(known) == set l | l in Elements(members[..i]) && HasList(k, v, l)
    {
      PrefixElements(members, i);
      MoreElements(known, members[i]);
      if HasList(k, v, members[i]) {
        known := known + [members[i]];
      }
    }
    assert members[..|members|] == members;
    ClaimedMembers(k, v, id);
    SortedIsStable(known);
    return true, Stable(known);
  }

  ghost function Carried(k: Catalog, v: Overlay, categories: seq<Str>): set<Str> {
    if categories == [] then {}
    else
      var id := categories[|categories| - 1];
      Carried(k, v, categories[..|categories| - 1]) + (if HasCategory(k, v, id) then Members(k, v, id) else {})
  }

  lemma {:induction false} CarriedBy(k: Catalog, v: Overlay, categories: seq<Str>, l: Str)
    ensures l in Carried(k, v, categories) <==>
      exists c :: c in categories && HasCategory(k, v, c) && l in Members(k, v, c)
  {
    hide Members;
    if categories != [] {
      var n := |categories| - 1;
      CarriedBy(k, v, categories[..n], l);
      assert categories == categories[..n] + [categories[n]];
    }
  }

  ghost function ResolvedSet(k: Catalog, v: Overlay, c: Choice): set<Str> {
    set l | l in Elements(c.lists) + Carried(k, v, c.categories) && l !in c.exclusions && HasList(k, v, l)
  }

  ghost function Resolved(k: Catalog, v: Overlay, c: Choice): seq<Str> {
    var s := Sorted(ResolvedSet(k, v, c));
    match Normalized(Filter(c.priority, Elements(s)), s)
    case Some(p) => p
    case None => s
  }

  /** What a profile routes: every list that exists, is not excluded, and is named or
      belongs to a named category that exists, by the operator's word on its
      membership or else as shipped. */
  lemma WhatAProfileRoutes(k: Catalog, v: Overlay, c: Choice, l: Str)
    ensures l in ResolvedSet(k, v, c) <==>
      && (l in k.lists || l in v.customLists) && l !in v.removedLists && l !in c.exclusions
      && (l in c.lists || exists cat :: cat in c.categories && Belongs(k, v, cat, l))
  {
    CarriedBy(k, v, c.categories, l);
    assert l in c.lists <==> l in Elements(c.lists);
    if cat :| cat in c.categories && HasCategory(k, v, cat) && l in Members(k, v, cat) {
      assert Belongs(k, v, cat, l);
    }
    if HasList(k, v, l) {
      if cat :| cat in c.categories && Belongs(k, v, cat, l) {
        assert l in Members(k, v, cat);
      }
    }
  }

  predicate Belongs(k: Catalog, v: Overlay, cat: Str, l: Str) {
    && cat !in v.removedCategories && (cat in k.categories || cat in v.customCategories)
    && if (cat, l) in v.membership then v.membership[(cat, l)] == Added
       else cat in k.categories && l in k.categories[cat]
  }

  /** In which order: first what the stored priority names, as it does, then the others
      by name. */
  lemma ProfileOrder(k: Catalog, v: Overlay, c: Choice)
    requires Distinct(c.priority) && forall i :: 0 <= i < |c.priority| ==> Slug(c.priority[i])
    ensures var r, named := Resolved(k, v, c), Filter(c.priority, ResolvedSet(k, v, c));
      named <= r && Increasing(r[|named|..]) && Elements(r) == ResolvedSet(k, v, c) && Distinct(r)
  {
    hide ResolvedSet, Slug, Sorted, Less;
    var set', s := ResolvedSet(k, v, c), Sorted(ResolvedSet(k, v, c));
    SortedElements(set');
    FilterKeeps(c.priority, set');
    var named := Filter(c.priority, set');
    forall i | 0 <= i < |named| ensures Slug(named[i]) && named[i] in set' {
      assert named[i] in Elements(named);
      var j :| 0 <= j < |c.priority| && c.priority[j] == named[i];
    }
    forall x ensures !Less(x, x) {
      LessIrreflexive(x);
    }
    assert Distinct(s);
    NormalizedIsComplete(named, s);
    FilterIncreases(s, Elements(s) - Elements(named));
  }

  /** `resolveComposition`. */
  method ResolveComposition(k: Catalog, v: Overlay, c: Choice) returns (r: seq<Str>)
    ensures r == Resolved(k, v, c)
  {
    hide Elements, Members, HasList, HasCategory, Sorted, Stable, Normalized, Filter;
    var resolved := c.lists;
    assert c.categories[..0] == [];
    for i := 0 to |c.categories|
      invariant Elements(resolved) == Elements(c.lists) + Carried(k, v, c.categories[..i])
    {
      assert c.categories[..i + 1][..i] == c.categories[..i];
      var found, lists := MergedCategory(k, v, c.categories[i]);
      if !found {
        continue;
      }
      SortedElements(Members(k, v, c.categories[i]));
      JoinedElements(resolved, lists);
      resolved := resolved + lists;
    }
    assert c.categories[..|c.categories|] == c.categories;
    var kept: seq<Str> := [];
    NoElements();
    assert resolved[..0] == [];
    for i := 0 to |resolved|
      invariant Elements(kept) == set l | l in Elements(resolved[..i]) && l !in c.exclusions && HasList(k, v, l)
    {
      PrefixElements(resolved, i);
      MoreElements(kept, resolved[i]);
      if resolved[i] in c.exclusions {
        continue;
      }
      if !HasList(k, v, resolved[i]) {
        continue;
      }
      kept := kept + [resolved[i]];
    }
    assert resolved[..|resolved|] == resolved;
    SortedIsStable(kept);
    var stable := Stable(kept);
    var priority := FilterKnownPriority(c.priority, stable);
    var normalized := NormalizePriority(priority, stable);
    return if normalized.None? then stable else normalized.value;
  }

  // -------------------------------------------------------------- accepting a composition

  ghost function ExistingLists(k: Catalog, v: Overlay): set<Str> {
    set l | l in k.lists + v.customLists && HasList(k, v, l)
  }

  ghost function ExistingCategories(k: Catalog, v: Overlay): set<Str> {
    set c | c in k.categories.Keys + v.customCategories && HasCategory(k, v, c)
  }

  predicate AllKnown(ids: seq<Str>, known: set<Str>) {
    forall i :: 0 <= i < |ids| ==> Slug(ids[i]) && ids[i] in known
  }

  lemma SameKnown(a: seq<Str>, b: seq<Str>, known: set<Str>)
    requires Elements(a) == Elements(b)
    ensures AllKnown(a, known) == AllKnown(b, known)
    ensures forall x :: x in a <==> x in b
  {
    hide Slug;
    forall x ensures x in a <==> x in b {
      assert x in Elements(a) <==> x in Elements(b);
    }
    assert forall i :: 0 <= i < |a| ==> a[i] in b;
    assert forall i :: 0 <= i < |b| ==> b[i] in a;
  }

  lemma SomeElement(s: seq<Str>)
    requires s != []
    ensures Elements(s) != {}
  {
    assert s[0] in Elements(s);
  }

  lemma NormalizedWhen(requested: seq<Str>, resolved: seq<Str>)
    ensures Normalized(requested, resolved).Some? <==> Requestable(requested, Elements(resolved))
  {
  }

  ghost predicate Composable(k: Catalog, v: Overlay, c: Choice) {
    && |Stable(c.lists)| <= MAX_ITEMS && |Stable(c.categories)| <= MAX_ITEMS && |Stable(c.exclusions)| <= MAX_ITEMS
    && AllKnown(c.lists, ExistingLists(k, v)) && AllKnown(c.categories, ExistingCategories(k, v))
    && AllKnown(c.exclusions, ExistingLists(k, v))
    && (forall l :: l in c.exclusions ==> l !in c.lists)
    && ResolvedSet(k, v, c) != {}
  }

  ghost function Composed(k: Catalog, v: Overlay, c: Choice, grammar: Grammar): Option<Choice> {
    if !Composable(k, v, c) then None
    else
      var domains := NormalDomains(c.domains, ResolvedSet(k, v, c), grammar);
      var order := Normalized(c.priority, Sorted(ResolvedSet(k, v, c)));
      if domains.None? || order.None? then None
      else Some(Choice(Stable(c.lists), Stable(c.categories), Stable(c.exclusions), order.value, domains.value))
  }

  lemma SameNamesResolve(k: Catalog, v: Overlay, c: Choice, d: Choice)
    requires forall x :: x in c.lists <==> x in d.lists
    requires forall x :: x in c.categories <==> x in d.categories
    requires forall x :: x in c.exclusions <==> x in d.exclusions
    ensures ResolvedSet(k, v, c) == ResolvedSet(k, v, d)
  {
    hide Members, HasCategory, HasList;
    forall l ensures l in Carried(k, v, c.categories) <==> l in Carried(k, v, d.categories) {
      CarriedBy(k, v, c.categories, l);
      CarriedBy(k, v, d.categories, l);
    }
  }

  /** Without a priority the resolved lists are in order. */
  lemma ResolvedPlain(k: Catalog, v: Overlay, c: Choice)
    requires c.priority == []
    ensures Resolved(k, v, c) == Sorted(ResolvedSet(k, v, c))
  {
    hide Sorted, ResolvedSet, Slug;
    var s := Sorted(ResolvedSet(k, v, c));
    assert Elements(s) - Elements<Str>([]) == Elements(s);
    FilterKeeps(s, Elements(s));
    assert [] + s == s;
  }

  /** `validComposition`. */
  method ValidComposition(k: Catalog, v: Overlay, c: Choice, grammar: Grammar) returns (r: Option<Choice>)
    ensures r == Composed(k, v, c, grammar)
  {
    hide Stable, Slug, Normalized, Sorted, Elements, NormalDomains, Resolved, HasList, HasCategory;
    var lists, categories, exclusions := Stable(c.lists), Stable(c.categories), Stable(c.exclusions);
    StableSorts(c.lists);
    StableSorts(c.categories);
    StableSorts(c.exclusions);
    SameKnown(lists, c.lists, ExistingLists(k, v));
    SameKnown(categories, c.categories, ExistingCategories(k, v));
    SameKnown(exclusions, c.exclusions, ExistingLists(k, v));
    Existing(k, v);
    if |lists| > MAX_ITEMS || |categories| > MAX_ITEMS || |exclusions| > MAX_ITEMS {
      return None;
    }
    for i := 0 to |lists|
      invariant AllKnown(lists[..i], ExistingLists(k, v))
    {
      if !Slug(lists[i]) || !HasList(k, v, lists[i]) {
        return None;
      }
    }
    for i := 0 to |categories|
      invariant AllKnown(categories[..i], ExistingCategories(k, v))
    {
      if !Slug(categories[i]) || !HasCategory(k, v, categories[i]) {
        return None;
      }
    }
    for i := 0 to |exclusions|
      invariant AllKnown(exclusions[..i], ExistingLists(k, v)) && forall j :: 0 <= j < i ==> exclusions[j] !in lists
    {
      if !Slug(exclusions[i]) || !HasList(k, v, exclusions[i]) {
        return None;
      }
      if exclusions[i] in lists {
        return None;
      }
    }
    var plain := Choice(lists, categories, exclusions, [], map[]);
    var resolved := ResolveComposition(k, v, plain);
    SameNamesResolve(k, v, plain, c);
    ResolvedPlain(k, v, plain);
    SortedElements(ResolvedSet(k, v, c));
    if |resolved| == 0 {
      NoElements();
      return None;
    }
    SomeElement(resolved);
    var domains := NormalizeListDomains(c.domains, resolved, grammar);
    if domains.None? {
      return None;
    }
    var priority := NormalizePriority(c.priority, resolved);
    NormalizedWhen(c.priority, resolved);
    if priority.None? {
      return None;
    }
    return Some(Choice(lists, categories, exclusions, priority.value, domains.value));
  }

  lemma Existing(k: Catalog, v: Overlay)
    ensures forall l :: HasList(k, v, l) <==> l in ExistingLists(k, v)
    ensures forall c :: HasCategory(k, v, c) <==> c in ExistingCategories(k, v)
  {
  }

  lemma JoinedElements(a: seq<Str>, b: seq<Str>)
    ensures Elements(a + b) == Elements(a) + Elements(b)
  {
  }

  // -------------------------------------------------------------- editing a category

  datatype Row = Row(category: Str, list: Str, state: Verdict)

  ghost predicate Difference(rows: set<Row>, category: Str, desired: set<Str>, catalog: set<Str>) {
    rows == (set l | l in desired - catalog :: Row(category, l, Added)) +
      (set l | l in catalog - desired :: Row(category, l, Removed))
  }

  predicate DistinctRows(rows: seq<Row>) {
    forall i, j :: 0 <= i < j < |rows| ==> rows[i].list != rows[j].list
  }

  lemma DistinctRearranged(perm: seq<nat>, r: seq<Row>, s: seq<Row>)
    requires Rearranges(perm, r, s) && DistinctRows(s)
    ensures DistinctRows(r)
  {
    forall i, j | 0 <= i < j < |r| ensures r[i].list != r[j].list {
      assert perm[i] != perm[j];
    }
  }

  /** `membershipRows`: what to store so that the category holds what was asked for,
      ordered by list. */
  method MembershipRows(category: Str, desired: seq<Str>, catalog: seq<Str>) returns (r: seq<Row>)
    ensures Difference(Elements(r), category, Elements(desired), Elements(catalog))
    ensures Distinct(desired) && Distinct(catalog) ==> forall i, j :: 0 <= i < j < |r| ==> Less(r[i].list, r[j].list)
    ensures forall i, j :: 0 <= i < j < |r| ==> !Less(r[j].list, r[i].list)
  {
    hide Less, Rearranges;
    var rows := UnsortedRows(category, desired, catalog);
    LessIsStrict();
    ghost var perm;
    r, perm := SortFunc(rows, (a: Row, b: Row) => Less(a.list, b.list));
    RearrangedMembers(perm, r, rows);
    if Distinct(desired) && Distinct(catalog) {
      DistinctRearranged(perm, r, rows);
      forall i, j | 0 <= i < j < |r| ensures Less(r[i].list, r[j].list) {
        LessTotal(r[i].list, r[j].list);
      }
    }
  }

  lemma MoreDistinct(rows: seq<Row>, row: Row)
    ensures DistinctRows(rows) && (forall r :: r in rows ==> r.list != row.list) ==> DistinctRows(rows + [row])
  {
  }

  method UnsortedRows(category: Str, desired: seq<Str>, catalog: seq<Str>) returns (rows: seq<Row>)
    ensures Difference(Elements(rows), category, Elements(desired), Elements(catalog))
    ensures Distinct(desired) && Distinct(catalog) ==> DistinctRows(rows)
  {
    rows := [];
    ghost var distinct := Distinct(desired) && Distinct(catalog);
    for i := 0 to |desired|
      invariant forall r :: r in rows <==>
        exists k :: 0 <= k < i && desired[k] !in catalog && r == Row(category, desired[k], Added)
      invariant distinct ==> DistinctRows(rows)
    {
      if desired[i] in catalog {
        continue;
      }
      assert distinct ==> forall r :: r in rows ==> r.list != desired[i];
      MoreDistinct(rows, Row(category, desired[i], Added));
      rows := rows + [Row(category, desired[i], Added)];
    }
    ghost var added := rows;
    for i := 0 to |catalog|
      invariant forall r :: r in rows <==>
        (r in added || exists k :: 0 <= k < i && catalog[k] !in desired && r == Row(category, catalog[k], Removed))
      invariant distinct ==> DistinctRows(rows)
    {
      if catalog[i] in desired {
        continue;
      }
      assert distinct ==> forall r :: r in rows ==> r.list != catalog[i];
      MoreDistinct(rows, Row(category, catalog[i], Removed));
      rows := rows + [Row(category, catalog[i], Removed)];
    }
  }

  /** The overlay after the category's rows were replaced. */
  ghost predicate Replaced(before: Overlay, after: Overlay, category: Str, rows: set<Row>) {
    && after == before.(membership := after.membership)
    && (forall m: (Str, Str) :: m.0 != category ==>
      (m in after.membership <==> m in before.membership) &&
      (m in before.membership ==> after.membership[m] == before.membership[m]))
    && (forall l :: (category, l) in after.membership <==> exists r :: r in rows && r.list == l)
    && (forall r :: r in rows ==>
      (category, r.list) in after.membership && after.membership[(category, r.list)] == r.state)
  }

  ghost function StateOf(rows: set<Row>, l: Str): Verdict
    requires exists r :: r in rows && r.list == l
  {
    var r :| r in rows && r.list == l; r.state
  }

  /** Rows with one verdict for each list can always be put in place. */
  lemma RowsCanBeStored(before: Overlay, category: Str, rows: set<Row>)
    requires forall r, q :: r in rows && q in rows && r.list == q.list ==> r == q
    ensures exists after :: Replaced(before, after, category, rows)
  {
    var own := set r | r in rows :: (category, r.list);
    var membership := map m |
      m in before.membership.Keys + own && (m.0 != category || exists r :: r in rows && r.list == m.1) ::
        if m.0 == category then StateOf(rows, m.1) else before.membership[m];
    var after := before.(membership := membership);
    forall l ensures (category, l) in membership <==> exists r :: r in rows && r.list == l {
      if r :| r in rows && r.list == l {
        assert (category, r.list) in own;
      }
    }
    assert Replaced(before, after, category, rows);
  }

  /** An edited category holds exactly the lists that were asked for, and no other
      category changes. */
  lemma EditedMembers(k: Catalog, before: Overlay, after: Overlay, category: Str, desired: seq<Str>, rows: set<Row>)
    requires Difference(rows, category, Elements(desired), Elements(Base(k, category)))
    requires Replaced(before, after, category, rows)
    requires forall l :: l in desired ==> HasList(k, before, l)
    ensures Members(k, after, category) == Elements(desired)
    ensures forall other :: other != category ==> Members(k, after, other) == Members(k, before, other)
  {
    var base := Base(k, category);
    forall l ensures (category, l) in after.membership <==> (l in desired) != (l in base)
              ensures (category, l) in after.membership ==> after.membership[(category, l)].Added? == (l in desired)
    {
      if l in desired && l !in base {
        assert Row(category, l, Added) in rows;
      }
      if l in base && l !in desired {
        assert Row(category, l, Removed) in rows;
      }
    }
    forall other, l | other != category ensures l in Members(k, after, other) <==> l in Members(k, before, other) {
      assert (other, l).0 != category;
    }
    forall other | other != category ensures Members(k, after, other) == Members(k, before, other) {
    }
  }

  // -------------------------------------------------------------- the default order

  /** `mergePriority`: a saved order over what exists now. */
  method MergePriority(stored: seq<Str>, available: seq<Str>) returns (ordered: seq<Str>)
    ensures Distinct(ordered) && Elements(ordered) == Elements(available)
    ensures Distinct(stored) ==> Filter(stored, Elements(available)) <= ordered
    ensures Distinct(stored) && Distinct(available) ==>
      ordered == Filter(stored, Elements(available)) + Filter(available, Elements(available) - Elements(stored))
    ensures Distinct(stored) && Elements(stored) == Elements(available) ==> ordered == stored
  {
    hide Filter;
    var seen: set<Str> := {};
    ordered := [];
    FilterOf(stored, Elements(available), 0);
    for i := 0 to |stored|
      invariant seen == Elements(ordered) == Elements(stored[..i]) * Elements(available) && Distinct(ordered)
      invariant Distinct(stored) ==> ordered == Filter(stored[..i], Elements(available))
    {
      PrefixElements(stored, i);
      FilterOf(stored, Elements(available), i + 1);
      if stored[i] !in available {
        continue;
      }
      if stored[i] in seen {
        continue;
      }
      seen := seen + {stored[i]};
      ordered := ordered + [stored[i]];
    }
    assert stored[..|stored|] == stored;
    var front := ordered;
    ordered := WithMissing(front, available);
    assert Elements(available) - Elements(front) == Elements(available) - Elements(stored);
    if Distinct(stored) && Elements(stored) == Elements(available) {
      FilterKeeps(stored, Elements(available));
      SameLength(front, ordered);
    }
  }

  /** The second loop of `mergePriority`: what exists and has no place yet. */
  method WithMissing(front: seq<Str>, available: seq<Str>) returns (ordered: seq<Str>)
    requires Distinct(front)
    ensures Distinct(ordered) && Elements(ordered) == Elements(front) + Elements(available) && front <= ordered
    ensures Distinct(available) ==>
      ordered == front + Filter(available, Elements(available) - Elements(front))
  {
    hide Filter;
    ordered := front;
    var seen := set x | x in front;
    ghost var missing := Elements(available) - Elements(front);
    FilterOf(available, missing, 0);
    assert front + [] == front;
    for i := 0 to |available|
      invariant seen == Elements(ordered) == Elements(front) + Elements(available[..i])
      invariant Distinct(ordered) && front <= ordered
      invariant Distinct(available) ==> ordered == front + Filter(available[..i], missing)
    {
      PrefixElements(available, i);
      FilterOf(available, missing, i + 1);
      if Distinct(available) {
        FirstTime(available, i);
      }
      if available[i] in seen {
        continue;
      }
      MoreElements(ordered, available[i]);
      seen := seen + {available[i]};
      ordered := ordered + [available[i]];
    }
    assert available[..|available|] == available;
  }

  lemma FirstTime(s: seq<Str>, i: nat)
    requires Distinct(s) && i < |s|
    ensures s[i] !in Elements(s[..i]) && s[i] in Elements(s)
  {
  }

  lemma SameLength(p: seq<Str>, q: seq<Str>)
    requires p <= q && Distinct(q) && Elements(p) == Elements(q)
    ensures p == q
  {
    DistinctCount(p);
    DistinctCount(q);
  }

  lemma {:induction false} DistinctCount(s: seq<Str>)
    requires Distinct(s)
    ensures |Elements(s)| == |s|
  {
    if s != [] {
      var n := |s| - 1;
      DistinctCount(s[..n]);
      assert s == s[..n] + [s[n]];
      assert Elements(s) == Elements(s[..n]) + {s[n]};
    }
  }

  lemma FilterOf(s: seq<Str>, keep: set<Str>, i: nat)
    requires i <= |s|
    ensures Filter(s[..i], keep) ==
      if i == 0 then [] else Filter(s[..i - 1], keep) + if s[i - 1] in keep then [s[i - 1]] else []
  {
    if i > 0 {
      assert s[..i][..i - 1] == s[..i - 1];
    }
  }
}
