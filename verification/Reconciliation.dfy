/** `reconcileManagedRoutes` and `verifyManagedRouteMutation`, with the loops over
    maps and the in-place sorts of the source. */
module Reconciliation {
  import opened Text
  import opened Net
  import opened RouteLabels
  import opened RouteLedger
  import opened ManagedRoutes
  import opened Sorting
  import Utf8

  // ---------------------------------------------------------------- order

  /** The sort key of a prefix. Only canonical prefixes are ever sorted. */
  function Key(p: Prefix): Str {
    if Canonical4(p) then PrefixText(p) else []
  }

  /** `comparePrefix(a, b) < 0`. */
  predicate PrefixBefore(a: Prefix, b: Prefix) {
    Less(Key(a), Key(b))
  }

  predicate ClaimBefore(a: Claim, b: Claim) {
    Less(a.output, b.output) || (a.output == b.output && PrefixBefore(a.prefix, b.prefix))
  }

  lemma ClaimOrder()
    ensures Transitive(ClaimBefore) && forall c :: !ClaimBefore(c, c)
    ensures forall a: Claim, b: Claim ::
      Canonical4(a.prefix) && Canonical4(b.prefix) && (a.output != b.output || a.prefix != b.prefix) ==>
      ClaimBefore(a, b) || ClaimBefore(b, a)
  {
    hide Key, Canonical4, Less;
    PrefixOrder();
    forall a: Claim, b: Claim |
      Canonical4(a.prefix) && Canonical4(b.prefix) && (a.output != b.output || a.prefix != b.prefix)
      ensures ClaimBefore(a, b) || ClaimBefore(b, a)
    {
      LessTotal(a.output, b.output);
    }
    forall a, b, c | ClaimBefore(a, b) && ClaimBefore(b, c) ensures ClaimBefore(a, c) {
      if Less(a.output, b.output) && Less(b.output, c.output) {
        LessTransitive(a.output, b.output, c.output);
      }
      if PrefixBefore(a.prefix, b.prefix) && PrefixBefore(b.prefix, c.prefix) {
        LessTransitive(Key(a.prefix), Key(b.prefix), Key(c.prefix));
      }
    }
    forall c ensures !ClaimBefore(c, c) {
      LessIrreflexive(c.output);
      LessIrreflexive(Key(c.prefix));
    }
  }

  lemma PrefixOrder()
    ensures forall a, b, c :: PrefixBefore(a, b) && PrefixBefore(b, c) ==> PrefixBefore(a, c)
    ensures forall a :: !PrefixBefore(a, a)
    ensures forall a, b :: Canonical4(a) && Canonical4(b) && a != b ==> PrefixBefore(a, b) || PrefixBefore(b, a)
  {
    hide Key;
    forall a, b, c | PrefixBefore(a, b) && PrefixBefore(b, c) ensures PrefixBefore(a, c) {
      LessTransitive(Key(a), Key(b), Key(c));
    }
    forall a ensures !PrefixBefore(a, a) {
      LessIrreflexive(Key(a));
    }
    forall a, b | Canonical4(a) && Canonical4(b) && a != b ensures PrefixBefore(a, b) || PrefixBefore(b, a) {
      DistinctKeys(a, b);
      LessTotal(Key(a), Key(b));
    }
  }

  lemma DistinctKeys(a: Prefix, b: Prefix)
    requires Canonical4(a) && Canonical4(b) && a != b
    ensures Key(a) != Key(b)
  {
    hide PrefixText, Masked;
    if PrefixText(a) == PrefixText(b) {
      PrefixTextInjective(a, b);
    }
  }

  predicate OrderedPrefixes(s: seq<Prefix>) {
    forall i, j :: 0 <= i < j < |s| ==> PrefixBefore(s[i], s[j])
  }

  predicate OrderedRoutes(s: seq<Route>) {
    forall i, j :: 0 <= i < j < |s| ==> PrefixBefore(s[i].prefix, s[j].prefix)
  }

  predicate OrderedSpecs(s: seq<Spec>) {
    forall i, j :: 0 <= i < j < |s| ==> PrefixBefore(s[i].prefix, s[j].prefix)
  }

  predicate OrderedClaims(s: seq<Claim>) {
    forall i, j :: 0 <= i < j < |s| ==> ClaimBefore(s[i], s[j])
  }

  // ---------------------------------------------------------------- sorting

  method SortRoutes(routes: seq<Route>) returns (r: seq<Route>)
    requires DistinctRoutes(routes) && forall i :: 0 <= i < |routes| ==> Canonical4(routes[i].prefix)
    ensures OrderedRoutes(r) && DistinctRoutes(r) && (forall x :: x in r <==> x in routes)
    ensures RouteView(r) == RouteView(routes)
  {
    hide Canonical4, PrefixBefore, RouteView;
    PrefixOrder();
    ghost var perm;
    r, perm := SortFunc(routes, (a: Route, b: Route) => PrefixBefore(a.prefix, b.prefix));
    RearrangedMembers(perm, r, routes);
    SameRoutes(r, routes);
  }

  method SortSpecs(specs: seq<Spec>) returns (r: seq<Spec>)
    requires DistinctSpecs(specs) && forall i :: 0 <= i < |specs| ==> Canonical4(specs[i].prefix)
    ensures OrderedSpecs(r) && DistinctSpecs(r) && (forall s :: s in r <==> s in specs)
    ensures TableView(r) == TableView(specs) && DesiredView(r) == DesiredView(specs)
  {
    hide Canonical4, PrefixBefore, TableView, DesiredView;
    PrefixOrder();
    ghost var perm;
    r, perm := SortFunc(specs, (a: Spec, b: Spec) => PrefixBefore(a.prefix, b.prefix));
    RearrangedMembers(perm, r, specs);
    SameSpecs(r, specs);
  }

  method SortClaims(claims: seq<Claim>) returns (r: seq<Claim>)
    requires DistinctClaims(claims) && forall i :: 0 <= i < |claims| ==> Canonical4(claims[i].prefix)
    ensures OrderedClaims(r) && DistinctClaims(r) && (forall c :: c in r <==> c in claims)
    ensures ClaimView(r) == ClaimView(claims)
  {
    hide Canonical4, ClaimBefore, ClaimView;
    ClaimOrder();
    ghost var perm;
    r, perm := SortFunc(claims, ClaimBefore);
    RearrangedMembers(perm, r, claims);
    SameClaims(r, claims);
  }

  method SortPrefixes(prefixes: seq<Prefix>) returns (r: seq<Prefix>)
    requires forall i, j :: 0 <= i < j < |prefixes| ==> prefixes[i] != prefixes[j]
    requires forall i :: 0 <= i < |prefixes| ==> Canonical4(prefixes[i])
    ensures OrderedPrefixes(r) && Elements(r) == Elements(prefixes)
  {
    hide Canonical4, Key;
    PrefixOrder();
    ghost var perm;
    r, perm := SortFunc(prefixes, PrefixBefore);
    RearrangedMembers(perm, r, prefixes);
    assert forall i :: 0 <= i < |r| ==> r[i] in prefixes;
  }

  // ---------------------------------------------------------------- inputs

  ghost predicate ValidDesiredSpecs(specs: seq<Spec>) {
    forall i :: 0 <= i < |specs| ==>
      Canonical4(specs[i].prefix) && CanonicalLabels(specs[i].labels) &&
      specs[i].description == Describe(Elements(specs[i].labels))
  }

  predicate ValidCurrent(specs: seq<Spec>) {
    && DistinctSpecs(specs)
    && forall i :: 0 <= i < |specs| ==> Canonical4(specs[i].prefix) && Utf8.Valid(specs[i].description)
  }

  /** The labels gathered for each desired prefix. */
  function GatheredLabels(specs: seq<Spec>): map<Prefix, seq<Str>> {
    if specs == [] then map[]
    else var s := specs[|specs| - 1];
      var before := GatheredLabels(specs[..|specs| - 1]);
      before[s.prefix := (if s.prefix in before then before[s.prefix] else []) + s.labels]
  }

  lemma {:induction false} GatheredView(specs: seq<Spec>)
    ensures GatheredLabels(specs).Keys == DesiredView(specs).Keys
    ensures forall p :: p in GatheredLabels(specs) ==> Elements(GatheredLabels(specs)[p]) == DesiredView(specs)[p]
  {
    if specs != [] {
      var n := |specs| - 1;
      GatheredView(specs[..n]);
      forall a: seq<Str>, b: seq<Str> ensures Elements(a + b) == Elements(a) + Elements(b) {
      }
    }
  }

  lemma {:induction false} GatheredValid(specs: seq<Spec>)
    requires ValidDesiredSpecs(specs)
    ensures forall p :: p in GatheredLabels(specs) ==> Canonical4(p) && ValidLabels(GatheredLabels(specs)[p])
  {
    hide Canonical4, ValidLabel, Describe;
    if specs != [] {
      assert ValidDesiredSpecs(specs[..|specs| - 1]);
      GatheredValid(specs[..|specs| - 1]);
    }
  }

  lemma StableKeepsValid(labels: seq<Str>)
    requires ValidLabels(labels)
    ensures CanonicalLabels(Stable(labels)) && Elements(Stable(labels)) == Elements(labels)
  {
    hide ValidLabel;
    StableSorts(labels);
    forall i | 0 <= i < |Stable(labels)| ensures ValidLabel(Stable(labels)[i]) {
      assert Stable(labels)[i] in Elements(Stable(labels));
    }
  }

  /** `canonicalDesiredSpecs`: one spec per prefix, its labels merged, in order. */
  method CanonicalDesiredSpecs(specs: seq<Spec>) returns (ok: bool, r: seq<Spec>)
    ensures ok <==> ValidDesiredSpecs(specs)
    ensures ok ==> ValidDesiredSpecs(r) && OrderedSpecs(r) && DistinctSpecs(r) && DesiredView(r) == DesiredView(specs)
  {
    hide Canonical4, CanonicalLabels, Describe, Elements, DesiredView, GatheredLabels, ValidLabels, ValidDesiredSpecs,
      DistinctSpecs, OrderedSpecs, PrefixesOf;
    var byPrefix: map<Prefix, seq<Str>> := map[];
    assert specs[..0] == [];
    GatheredNothing();
    var i := 0;
    while i < |specs|
      invariant 0 <= i <= |specs| && ValidDesiredSpecs(specs[..i]) && byPrefix == GatheredLabels(specs[..i])
    {
      var s := specs[i];
      GatheredStep(specs, i);
      var pair := CanonicalPair(s.labels, s.description);
      if !Canonical4(s.prefix) || !pair {
        return false, [];
      }
      byPrefix := AddLabels(byPrefix, s.prefix, s.labels);
      i := i + 1;
    }
    assert specs[..i] == specs;
    GatheredValid(specs);
    var result := SpecsOf(byPrefix);
    GatheredSpecs(specs, result);
    SameValidity(result, result);
    r := SortSpecs(result);
    SameValidity(result, r);
    return true, r;
  }

  lemma SameValidity(a: seq<Spec>, b: seq<Spec>)
    requires ValidDesiredSpecs(a) && forall s :: s in b <==> s in a
    ensures ValidDesiredSpecs(b)
    ensures forall i :: 0 <= i < |a| ==> Canonical4(a[i].prefix)
  {
    hide Canonical4, CanonicalLabels, Describe, Elements;
    forall i | 0 <= i < |b|
      ensures Canonical4(b[i].prefix) && CanonicalLabels(b[i].labels) &&
        b[i].description == Describe(Elements(b[i].labels))
    {
      assert b[i] in a;
    }
  }

  lemma GatheredNothing()
    ensures GatheredLabels([]) == map[] && ValidDesiredSpecs([])
  {
  }

  lemma GatheredStep(specs: seq<Spec>, i: nat)
    requires i < |specs| && ValidDesiredSpecs(specs[..i])
    ensures var before, s := GatheredLabels(specs[..i]), specs[i];
      GatheredLabels(specs[..i + 1]) ==
      before[s.prefix := (if s.prefix in before then before[s.prefix] else []) + s.labels]
    ensures ValidDesiredSpecs(specs[..i + 1]) <==>
      Canonical4(specs[i].prefix) && CanonicalLabels(specs[i].labels) &&
      specs[i].description == Describe(Elements(specs[i].labels))
    ensures ValidDesiredSpecs(specs) ==> ValidDesiredSpecs(specs[..i + 1])
  {
    hide Canonical4, CanonicalLabels, Describe, Elements;
    assert specs[..i + 1][..i] == specs[..i];
  }

  /** A spec for each gathered prefix shows the desired routes. */
  lemma GatheredSpecs(specs: seq<Spec>, result: seq<Spec>)
    requires DistinctSpecs(result) && PrefixesOf(result) == GatheredLabels(specs).Keys
    requires forall s :: s in result ==>
      s.prefix in GatheredLabels(specs) && Elements(s.labels) == Elements(GatheredLabels(specs)[s.prefix])
    ensures DesiredView(result) == DesiredView(specs)
  {
    hide Elements, GatheredLabels, DesiredView, DistinctSpecs;
    GatheredView(specs);
    DesiredViewOf(result);
    assert DesiredView(result).Keys == PrefixesOf(result);
    forall p | p in DesiredView(result) ensures DesiredView(result)[p] == DesiredView(specs)[p] {
      var s :| s in result && s.prefix == p;
    }
  }

  function PrefixesOf(specs: seq<Spec>): set<Prefix> {
    set s | s in specs :: s.prefix
  }

  lemma OneMoreSpec(specs: seq<Spec>, s: Spec)
    ensures PrefixesOf(specs + [s]) == PrefixesOf(specs) + {s.prefix}
    ensures DistinctSpecs(specs) && s.prefix !in PrefixesOf(specs) ==> DistinctSpecs(specs + [s])
    ensures forall x :: x in specs + [s] <==> x in specs || x == s
  {
    assert forall x :: x in specs + [s] <==> x in specs || x == s;
  }

  /** The canonical spec of one prefix. */
  method CanonicalSpec(p: Prefix, labels: seq<Str>) returns (s: Spec)
    requires ValidLabels(labels)
    ensures s == Spec(p, Describe(Elements(labels)), Stable(labels))
    ensures Elements(s.labels) == Elements(labels) && CanonicalLabels(s.labels)
  {
    hide ValidLabels, ValidLabel, Describe;
    var canonical, stable := CanonicalManagedLabels(labels);
    StableKeepsValid(labels);
    var d := CompactManagedRouteDescription(stable);
    return Spec(p, d, stable);
  }

  /** One spec per key, in whatever order the map yields its keys. */
  method SpecsOf(byPrefix: map<Prefix, seq<Str>>) returns (r: seq<Spec>)
    requires forall p :: p in byPrefix ==> Canonical4(p) && ValidLabels(byPrefix[p])
    ensures DistinctSpecs(r) && ValidDesiredSpecs(r) && PrefixesOf(r) == byPrefix.Keys
    ensures forall s :: s in r ==> s.prefix in byPrefix && Elements(s.labels) == Elements(byPrefix[s.prefix])
  {
    hide Canonical4, CanonicalLabels, ValidLabels, Describe, Elements, DistinctSpecs, PrefixesOf, Stable;
    r := [];
    var rest := byPrefix.Keys;
    assert DistinctSpecs(r) && PrefixesOf(r) == {} by {
      NoSpecs();
    }
    while rest != {}
      invariant rest <= byPrefix.Keys && DistinctSpecs(r) && ValidDesiredSpecs(r)
      invariant PrefixesOf(r) == byPrefix.Keys - rest
      invariant forall s :: s in r ==> s.prefix in byPrefix && Elements(s.labels) == Elements(byPrefix[s.prefix])
      decreases |rest|
    {
      var p :| p in rest;
      var s := CanonicalSpec(p, byPrefix[p]);
      OneMoreSpec(r, s);
      r := r + [s];
      rest := rest - {p};
    }
  }

  lemma NoSpecs()
    ensures DistinctSpecs([]) && PrefixesOf([]) == {}
  {
  }

  lemma CurrentStep(specs: seq<Spec>, i: nat)
    requires i < |specs| && ValidCurrent(specs[..i])
    ensures ValidCurrent(specs[..i + 1]) <==>
      Canonical4(specs[i].prefix) && Utf8.Valid(specs[i].description) && specs[i].prefix !in TableView(specs[..i])
    ensures TableView(specs[..i + 1]) == TableView(specs[..i])[specs[i].prefix := specs[i].description]
    ensures ValidCurrent(specs) ==> ValidCurrent(specs[..i + 1])
  {
    hide Canonical4, Utf8.Valid;
    assert specs[..i + 1][..i] == specs[..i];
    TableViewOf(specs[..i]);
    assert specs[..i + 1] == specs[..i] + [specs[i]];
  }

  lemma EmptyCurrent()
    ensures ValidCurrent([]) && TableView([]) == map[]
  {
  }

  /** `currentSpecMap`. */
  method CurrentSpecMap(specs: seq<Spec>) returns (ok: bool, m: Table)
    ensures ok <==> ValidCurrent(specs)
    ensures ok ==> m == TableView(specs)
  {
    hide ValidCurrent, Canonical4, Utf8.Valid, TableView;
    EmptyCurrent();
    assert specs[..0] == [];
    m := map[];
    var i := 0;
    while i < |specs|
      invariant 0 <= i <= |specs| && ValidCurrent(specs[..i]) && m == TableView(specs[..i])
    {
      var s := specs[i];
      CurrentStep(specs, i);
      if !Canonical4(s.prefix) || !Utf8.Valid(s.description) {
        return false, m;
      }
      if s.prefix in m {
        return false, m;
      }
      m := m[s.prefix := s.description];
      i := i + 1;
    }
    assert specs[..i] == specs;
    return true, m;
  }

  // ---------------------------------------------------------------- claims

  /** Other outputs' claims. */
  method OtherClaims(claims: seq<Claim>, o: Str) returns (r: seq<Claim>)
    requires DistinctClaims(claims)
    ensures DistinctClaims(r) && forall c :: c in r <==> c in claims && c.output != o
  {
    r := [];
    var i := 0;
    while i < |claims|
      invariant 0 <= i <= |claims|
      invariant forall c :: c in r <==> c in claims[..i] && c.output != o
      invariant DistinctClaims(r)
    {
      if claims[i].output != o {
        r := r + [claims[i]];
      }
      i := i + 1;
    }
  }

  function AsClaim(o: Str, s: Spec): Claim {
    Claim(o, s.prefix, s.description, s.labels)
  }

  function OwnClaims(o: Str, specs: seq<Spec>): set<Claim> {
    set s | s in specs :: AsClaim(o, s)
  }

  /** Other outputs' claims, then this output's desired routes as claims. */
  method MergeClaims(claims: seq<Claim>, o: Str, desired: seq<Spec>) returns (r: seq<Claim>)
    requires DistinctClaims(claims) && DistinctSpecs(desired) && ValidDesiredSpecs(desired) && IsHexID(o)
    requires forall i :: 0 <= i < |claims| ==> WellFormedClaim(claims[i])
    ensures DistinctClaims(r) && forall i :: 0 <= i < |r| ==> WellFormedClaim(r[i])
    ensures ClaimView(r) == NextClaims(ClaimView(claims), o, DesiredView(desired))
  {
    hide Canonical4, CanonicalLabels, Describe, IsHexID, Elements, NextClaims, ClaimView, DesiredView;
    r := OtherClaims(claims, o);
    ghost var others := r;
    var k := 0;
    while k < |desired|
      invariant 0 <= k <= |desired|
      invariant DistinctClaims(r) && forall i :: 0 <= i < |r| ==> WellFormedClaim(r[i])
      invariant forall c :: c in r <==> c in others || c in OwnClaims(o, desired[..k])
    {
      var s := desired[k];
      assert desired[..k + 1] == desired[..k] + [s];
      r := r + [Claim(o, s.prefix, s.description, s.labels)];
      assert OwnClaims(o, desired[..k + 1]) == OwnClaims(o, desired[..k]) + {AsClaim(o, s)};
      k := k + 1;
    }
    assert desired[..k] == desired;
    MergedView(claims, o, desired, r);
  }

  lemma MergedView(claims: seq<Claim>, o: Str, desired: seq<Spec>, r: seq<Claim>)
    requires DistinctClaims(claims) && DistinctSpecs(desired) && DistinctClaims(r)
    requires forall c :: c in r <==>
      (c in claims && c.output != o) || c in OwnClaims(o, desired)
    ensures ClaimView(r) == NextClaims(ClaimView(claims), o, DesiredView(desired))
  {
    hide Elements, NextClaims, ClaimView, DesiredView;
    ClaimViewOf(claims);
    ClaimViewOf(r);
    DesiredViewOf(desired);
    var next := NextClaims(ClaimView(claims), o, DesiredView(desired));
    NextClaimsOf(ClaimView(claims), o, DesiredView(desired));
    forall k | k in ClaimView(r) ensures k in next && next[k] == ClaimView(r)[k] {
      var c :| c in r && (c.output, c.prefix) == k;
    }
    forall k | k in next ensures k in ClaimView(r) {
      assert k == (k.0, k.1);
      if k.0 == o {
        var s :| s in desired && s.prefix == k.1;
        assert AsClaim(o, s) in r;
      } else {
        var c :| c in claims && (c.output, c.prefix) == k;
      }
    }
  }

  // ---------------------------------------------------------------- routes

  ghost predicate Touched(b: Book, claims: Claims, t: Table, p: Prefix) {
    p !in t || (Made(b, p) && t[p] != NextDescription(b, claims, p))
  }

  ghost function NextRoute(b: Book, claims: Claims, t: Table, p: Prefix): Route {
    Route(p, if NextMade(b, t, p) then NextDescription(b, claims, p) else [], NextMade(b, t, p))
  }

  /** One round of the loop over `labelsByPrefix`. */
  method PlanRoute(p: Prefix, labels: seq<Str>, prior: map<Prefix, Owned>, t: Table, ghost b: Book,
      ghost claims: Claims)
    returns (upsert: seq<Spec>, route: Route)
    requires ValidLabels(labels) && prior == b.routes && Elements(labels) == LabelsOn(claims, p)
    ensures route == NextRoute(b, claims, t, p)
    ensures upsert == if Touched(b, claims, t, p) then [Spec(p, NextDescription(b, claims, p), Stable(labels))] else []
  {
    hide ValidLabels, Describe, Elements, LabelsOn;
    var spec := CanonicalSpec(p, labels);
    if spec.description == [] && p in prior && prior[p].created && prior[p].description != [] {
      spec := spec.(description := prior[p].description);
    }
    var created := p in prior && prior[p].created;
    upsert := [];
    if p !in t {
      created := true;
      upsert := [spec];
    } else if p !in prior {
      created := false;
    } else if created && t[p] != spec.description {
      upsert := [spec];
    }
    route := Route(p, if created then spec.description else [], created);
  }

  function RoutePrefixes(routes: seq<Route>): set<Prefix> {
    set r | r in routes :: r.prefix
  }

  lemma OneMoreRoute(routes: seq<Route>, r: Route)
    ensures RoutePrefixes(routes + [r]) == RoutePrefixes(routes) + {r.prefix}
    ensures DistinctRoutes(routes) && r.prefix !in RoutePrefixes(routes) ==> DistinctRoutes(routes + [r])
    ensures forall x :: x in routes + [r] <==> x in routes || x == r
  {
    assert forall x :: x in routes + [r] <==> x in routes || x == r;
  }

  ghost function TouchedIn(b: Book, claims: Claims, t: Table, done: set<Prefix>): set<Prefix> {
    set p | p in done && Touched(b, claims, t, p)
  }

  lemma TouchedMore(b: Book, claims: Claims, t: Table, done: set<Prefix>, p: Prefix)
    ensures TouchedIn(b, claims, t, {}) == {}
    ensures TouchedIn(b, claims, t, done + {p}) ==
      TouchedIn(b, claims, t, done) + (if Touched(b, claims, t, p) then {p} else {})
  {
    hide Touched;
  }

  ghost predicate PlannedSpecs(b: Book, claims: Claims, t: Table, labels: map<Prefix, seq<Str>>, done: set<Prefix>,
    upsert: seq<Spec>)
  {
    && DistinctSpecs(upsert) && PrefixesOf(upsert) == TouchedIn(b, claims, t, done)
    && forall s :: s in upsert ==>
      s.prefix in labels && s == Spec(s.prefix, NextDescription(b, claims, s.prefix), Stable(labels[s.prefix]))
  }

  ghost predicate PlannedRoutes(b: Book, claims: Claims, t: Table, done: set<Prefix>, routes: seq<Route>) {
    && DistinctRoutes(routes) && RoutePrefixes(routes) == done
    && forall r :: r in routes ==> r == NextRoute(b, claims, t, r.prefix)
  }

  lemma PlannedMore(b: Book, claims: Claims, t: Table, labels: map<Prefix, seq<Str>>, done: set<Prefix>, p: Prefix,
      upsert: seq<Spec>, routes: seq<Route>)
    requires p in labels && p !in done
    requires PlannedSpecs(b, claims, t, labels, done, upsert) && PlannedRoutes(b, claims, t, done, routes)
    ensures PlannedRoutes(b, claims, t, done + {p}, routes + [NextRoute(b, claims, t, p)])
    ensures PlannedSpecs(b, claims, t, labels, done + {p}, upsert + if Touched(b, claims, t, p) then
        [Spec(p, NextDescription(b, claims, p), Stable(labels[p]))] else [])
  {
    hide Touched, NextDescription, Stable, DistinctSpecs, DistinctRoutes, PrefixesOf, RoutePrefixes, TouchedIn;
    TouchedMore(b, claims, t, done, p);
    TouchedDone(b, claims, t, done);
    OneMoreSpec(upsert, Spec(p, NextDescription(b, claims, p), Stable(labels[p])));
    OneMoreRoute(routes, NextRoute(b, claims, t, p));
    assert upsert + [] == upsert;
  }

  lemma NothingPlanned(b: Book, claims: Claims, t: Table, labels: map<Prefix, seq<Str>>)
    ensures PlannedSpecs(b, claims, t, labels, {}, []) && PlannedRoutes(b, claims, t, {}, [])
  {
  }

  /** The loop over `labelsByPrefix`: what to write and what to remember. */
  method PlanRoutes(labels: map<Prefix, seq<Str>>, prior: map<Prefix, Owned>, t: Table, ghost b: Book,
      ghost claims: Claims)
    returns (upsert: seq<Spec>, routes: seq<Route>)
    requires prior == b.routes
    requires forall p :: p in labels ==> ValidLabels(labels[p]) && Elements(labels[p]) == LabelsOn(claims, p)
    ensures PlannedSpecs(b, claims, t, labels, labels.Keys, upsert)
    ensures PlannedRoutes(b, claims, t, labels.Keys, routes)
  {
    hide ValidLabels, Elements, LabelsOn, Touched, NextRoute, NextDescription, Stable, PlannedSpecs, PlannedRoutes;
    upsert, routes := [], [];
    NothingPlanned(b, claims, t, labels);
    var rest := labels.Keys;
    ghost var done := {};
    while rest != {}
      invariant rest <= labels.Keys && done == labels.Keys - rest
      invariant PlannedSpecs(b, claims, t, labels, done, upsert) && PlannedRoutes(b, claims, t, done, routes)
      decreases |rest|
    {
      var p :| p in rest;
      var more, route := PlanRoute(p, labels[p], prior, t, b, claims);
      PlannedMore(b, claims, t, labels, done, p, upsert, routes);
      upsert, routes := upsert + more, routes + [route];
      rest := rest - {p};
      done := done + {p};
    }
    assert done == labels.Keys;
  }

  lemma TouchedDone(b: Book, claims: Claims, t: Table, done: set<Prefix>)
    ensures TouchedIn(b, claims, t, done) <= done
  {
  }

  lemma PlannedUpserts(b: Book, o: Str, desired: Desired, t: Table, labels: map<Prefix, seq<Str>>, upsert: seq<Spec>)
    requires var claims := NextClaims(b.claims, o, desired);
      labels.Keys == Claimed(claims) && PlannedSpecs(b, claims, t, labels, labels.Keys, upsert)
    ensures TableView(upsert) == Mutation(b, o, desired, t).upsert
  {
    hide NextClaims, Claimed, LabelsOn, Describe, NextDescription, DistinctSpecs, TableView, Stable;
    var view, asked := TableView(upsert), Mutation(b, o, desired, t).upsert;
    TableViewOf(upsert);
    forall p ensures p in view <==> p in asked {
      assert p in view <==> p in PrefixesOf(upsert);
    }
    forall p | p in view ensures view[p] == asked[p] {
      var s :| s in upsert && s.prefix == p;
    }
  }

  lemma PlannedLedger(b: Book, o: Str, desired: Desired, t: Table, labels: map<Prefix, seq<Str>>, routes: seq<Route>)
    requires var claims := NextClaims(b.claims, o, desired);
      labels.Keys == Claimed(claims) && PlannedRoutes(b, claims, t, labels.Keys, routes)
    ensures RouteView(routes) == NextBook(b, o, desired, t).routes
  {
    hide NextClaims, Claimed, LabelsOn, Describe, NextDescription, DistinctRoutes, RouteView;
    var view, next := RouteView(routes), NextBook(b, o, desired, t).routes;
    RouteViewOf(routes);
    forall p ensures p in view <==> p in next {
      assert p in view <==> p in RoutePrefixes(routes);
    }
    forall p | p in view ensures view[p] == next[p] {
      var r :| r in routes && r.prefix == p;
    }
  }

  /** The loop over `priorRoutes`: owned routes that lost their last claim and
      are still on the router. */
  method PlanRemovals(labels: map<Prefix, seq<Str>>, prior: map<Prefix, Owned>, t: Table) returns (remove: seq<Prefix>)
    ensures forall i, j :: 0 <= i < j < |remove| ==> remove[i] != remove[j]
    ensures forall p :: p in remove <==> p in prior && prior[p].created && p !in labels && p in t
  {
    remove := [];
    var rest := prior.Keys;
    while rest != {}
      invariant rest <= prior.Keys
      invariant forall i, j :: 0 <= i < j < |remove| ==> remove[i] != remove[j]
      invariant forall p :: p in remove <==> p in prior && p !in rest && prior[p].created && p !in labels && p in t
      decreases |rest|
    {
      var p :| p in rest;
      rest := rest - {p};
      if !prior[p].created {
        continue;
      }
      if p in labels {
        continue;
      }
      if p in t {
        remove := remove + [p];
      }
    }
  }

  // ---------------------------------------------------------------- the whole send

  ghost predicate Acceptable(prior: Ledger, o: Str, desired: seq<Spec>, current: seq<Spec>) {
    IsHexID(o) && ValidLedger(prior) && ValidDesiredSpecs(desired) && ValidCurrent(current)
  }

  predicate Ordered(l: Ledger) {
    OrderedRoutes(l.routes) && OrderedClaims(l.claims)
  }

  /** The slices `mutation` and `next` are what one send asks for. */
  ghost predicate Answers(prior: Ledger, o: Str, desired: seq<Spec>, current: seq<Spec>, mutation: RouteMutation,
      next: Ledger) {
    var b, d, t := View(prior), DesiredView(desired), TableView(current);
    && next.scope == prior.scope && View(next) == NextBook(b, o, d, t)
    && ValidLedger(next) && Ordered(next)
    && ChangeView(mutation) == Mutation(b, o, d, t)
    && OrderedSpecs(mutation.upsert) && OrderedPrefixes(mutation.remove)
    && forall s :: s in mutation.upsert ==> s.labels == Sorted(LabelsOn(View(next).claims, s.prefix))
  }

  lemma LabelMapValid(claims: seq<Claim>)
    requires DistinctClaims(claims) && forall i :: 0 <= i < |claims| ==> WellFormedClaim(claims[i])
    ensures forall p :: p in LabelMap(claims) ==> ValidLabels(LabelMap(claims)[p]) && Canonical4(p)
  {
    hide ValidLabel, Canonical4, Describe, IsHexID;
    if claims != [] {
      LabelMapValid(claims[..|claims| - 1]);
    }
  }

  method GatherLabels(claims: seq<Claim>) returns (m: map<Prefix, seq<Str>>)
    ensures m == LabelMap(claims)
  {
    m := map[];
    for i := 0 to |claims|
      invariant m == LabelMap(claims[..i])
    {
      assert claims[..i + 1][..i] == claims[..i];
      m := AddLabels(m, claims[i].prefix, claims[i].labels);
    }
    assert claims[..|claims|] == claims;
  }

  method RouteMap(routes: seq<Route>) returns (m: map<Prefix, Owned>)
    ensures m == RouteView(routes)
  {
    m := map[];
    for i := 0 to |routes|
      invariant m == RouteView(routes[..i])
    {
      assert routes[..i + 1][..i] == routes[..i];
      m := m[routes[i].prefix := Owned(routes[i].description, routes[i].created)];
    }
    assert routes[..|routes|] == routes;
  }

  lemma PlannedPrefixes(b: Book, claims: Claims, t: Table, labels: map<Prefix, seq<Str>>, upsert: seq<Spec>,
      routes: seq<Route>)
    requires PlannedSpecs(b, claims, t, labels, labels.Keys, upsert) && PlannedRoutes(b, claims, t, labels.Keys, routes)
    requires forall p :: p in labels ==> Canonical4(p) && Elements(labels[p]) == LabelsOn(claims, p)
    ensures DistinctSpecs(upsert) && DistinctRoutes(routes)
    ensures forall i :: 0 <= i < |upsert| ==> Canonical4(upsert[i].prefix)
    ensures forall i :: 0 <= i < |routes| ==> Canonical4(routes[i].prefix)
    ensures forall s :: s in upsert ==> s.labels == Sorted(LabelsOn(claims, s.prefix))
  {
    hide NextDescription, Touched, Canonical4, LabelsOn, Elements, Stable, Sorted;
    forall s | s in upsert ensures s.labels == Sorted(LabelsOn(claims, s.prefix)) {
      SortedIsStable(labels[s.prefix]);
    }
    forall i | 0 <= i < |routes| ensures Canonical4(routes[i].prefix) {
      assert routes[i] in routes;
      assert routes[i].prefix in RoutePrefixes(routes);
    }
    forall i | 0 <= i < |upsert| ensures Canonical4(upsert[i].prefix) {
      assert upsert[i] in upsert;
    }
  }

  /** The ledger half: claims first, then the labels they carry. */
  method NextClaimSlice(prior: Ledger, o: Str, desired: seq<Spec>)
    returns (claims: seq<Claim>, labels: map<Prefix, seq<Str>>)
    requires IsHexID(o) && ValidLedger(prior) && ValidDesiredSpecs(desired) && DistinctSpecs(desired)
    ensures DistinctClaims(claims) && forall i :: 0 <= i < |claims| ==> WellFormedClaim(claims[i])
    ensures ClaimView(claims) == NextClaims(View(prior).claims, o, DesiredView(desired))
    ensures labels.Keys == Claimed(ClaimView(claims))
    ensures forall p :: p in labels ==>
      Canonical4(p) && ValidLabels(labels[p]) && Elements(labels[p]) == LabelsOn(ClaimView(claims), p)
  {
    hide IsHexID, WellFormedClaim, ValidDesiredSpecs, DistinctClaims, DistinctSpecs, NextClaims, ClaimView,
      DesiredView, Claimed, Canonical4, ValidLabels, LabelsOn, Elements, LabelMap, Agrees, ValidScope, ValidRoutes;
    claims := MergeClaims(prior.claims, o, desired);
    LabelMapOf(claims);
    LabelMapValid(claims);
    labels := GatherLabels(claims);
  }

  lemma ClaimPrefixes(claims: seq<Claim>)
    requires forall i :: 0 <= i < |claims| ==> WellFormedClaim(claims[i])
    ensures forall i :: 0 <= i < |claims| ==> Canonical4(claims[i].prefix)
  {
    hide CanonicalLabels, Canonical4, Describe, IsHexID;
  }

  method SortLedger(scope: Scope, routes: seq<Route>, claims: seq<Claim>) returns (l: Ledger)
    requires WellFormed(Ledger(scope, routes, claims))
    ensures WellFormed(l) && Ordered(l) && l.scope == scope && View(l) == View(Ledger(scope, routes, claims))
  {
    hide WellFormedClaim, Canonical4, ValidScope, RouteView, ClaimView, OrderedClaims, OrderedRoutes;
    ClaimPrefixes(claims);
    var r := SortRoutes(routes);
    var c := SortClaims(claims);
    l := Ledger(scope, r, c);
    forall i | 0 <= i < |c| ensures WellFormedClaim(c[i]) {
      assert c[i] in claims;
    }
    forall i | 0 <= i < |r| ensures Canonical4(r[i].prefix) {
      assert r[i] in routes;
    }
  }

  lemma PriorPrefixes(prior: Ledger)
    requires ValidLedger(prior)
    ensures forall p :: p in RouteView(prior.routes) ==> Canonical4(p)
  {
    hide Canonical4, ValidDescription, Agrees, ValidClaims, ValidScope;
    RouteViewOf(prior.routes);
  }

  /** `reconcileManagedRoutes`, from the validated inputs on. */
  method Plan(prior: Ledger, o: Str, desired: seq<Spec>, t: Table) returns (mutation: RouteMutation, next: Ledger)
    requires IsHexID(o) && ValidLedger(prior) && ValidDesiredSpecs(desired) && DistinctSpecs(desired)
    ensures WellFormed(next) && Ordered(next) && next.scope == prior.scope
    ensures View(next) == NextBook(View(prior), o, DesiredView(desired), t)
    ensures ChangeView(mutation) == Mutation(View(prior), o, DesiredView(desired), t)
    ensures OrderedSpecs(mutation.upsert) && OrderedPrefixes(mutation.remove)
    ensures forall s :: s in mutation.upsert ==> s.labels == Sorted(LabelsOn(View(next).claims, s.prefix))
  {
    hide IsHexID, ValidDesiredSpecs, WellFormedClaim, DistinctSpecs, NextClaims, ClaimView, DesiredView, TableView,
      RouteView, Claimed, Canonical4, ValidLabels, LabelsOn, Elements, LabelMap, ValidScope, PlannedSpecs,
      PlannedRoutes, Ordered, NextDescription, Describe, Sorted, OrderedPrefixes, OrderedSpecs;
    var priorRoutes := RouteMap(prior.routes);
    PriorPrefixes(prior);
    var claims, labels := NextClaimSlice(prior, o, desired);
    ghost var view := ClaimView(claims);
    var upsert, routes := PlanRoutes(labels, priorRoutes, t, View(prior), view);
    PlannedUpserts(View(prior), o, DesiredView(desired), t, labels, upsert);
    PlannedLedger(View(prior), o, DesiredView(desired), t, labels, routes);
    PlannedPrefixes(View(prior), view, t, labels, upsert, routes);
    var remove := PlanRemovals(labels, priorRoutes, t);
    assert Elements(remove) == Mutation(View(prior), o, DesiredView(desired), t).remove by {
      PlannedRemovals(View(prior), o, DesiredView(desired), t, labels, remove);
    }
    upsert := SortSpecs(upsert);
    remove := SortPrefixes(remove);
    mutation := RouteMutation(upsert, remove);
    next := SortLedger(prior.scope, routes, claims);
  }

  lemma PlannedRemovals(b: Book, o: Str, desired: Desired, t: Table, labels: map<Prefix, seq<Str>>, remove: seq<Prefix>)
    requires labels.Keys == Claimed(NextClaims(b.claims, o, desired))
    requires forall p :: p in remove <==> p in b.routes && b.routes[p].created && p !in labels && p in t
    ensures Elements(remove) == Mutation(b, o, desired, t).remove
  {
    hide NextClaims, Claimed, NextDescription;
    forall p ensures p in Elements(remove) <==> p in Mutation(b, o, desired, t).remove {
      assert p in labels <==> p in Claimed(NextClaims(b.claims, o, desired));
    }
  }

  /** `reconcileManagedRoutes`. It refuses exactly the inputs it should, in this
      order; on all others it answers with the one send of the value model, in
      sorted slices. The check of its own result can refuse only when one prefix
      has more labels than a slice can hold. */
  method Reconcile(prior: Ledger, o: Str, desired: seq<Spec>, current: seq<Spec>) returns (r: Reconciled)
    ensures match r
      case Refused(InvalidOutput) => !IsHexID(o)
      case Refused(InvalidLedger) => IsHexID(o) && !ValidLedger(prior)
      case Refused(InvalidDesired) => IsHexID(o) && ValidLedger(prior) && !ValidDesiredSpecs(desired)
      case Refused(InvalidCurrent) =>
        IsHexID(o) && ValidLedger(prior) && ValidDesiredSpecs(desired) && !ValidCurrent(current)
      case Refused(InvalidResult) =>
        Acceptable(prior, o, desired, current) && !Countable(NextClaims(View(prior).claims, o, DesiredView(desired)))
      case Reconciled(mutation, next) =>
        Acceptable(prior, o, desired, current) && Answers(prior, o, desired, current, mutation, next)
  {
    hide IsHexID, ValidLedger, ValidDesiredSpecs, ValidCurrent, NextBook, Mutation, Countable, View, DesiredView,
      TableView, NextClaims, WellFormed, Ordered, OrderedSpecs, OrderedPrefixes, Elements, Sorted, LabelsOn,
      ChangeView;
    if !IsHexID(o) {
      return Refused(InvalidOutput);
    }
    var priorOk := ValidateManagedRouteOwnership(prior);
    if !priorOk {
      return Refused(InvalidLedger);
    }
    var desiredOk, specs := CanonicalDesiredSpecs(desired);
    if !desiredOk {
      return Refused(InvalidDesired);
    }
    var currentOk, t := CurrentSpecMap(current);
    if !currentOk {
      return Refused(InvalidCurrent);
    }
    var mutation, next := Plan(prior, o, specs, t);
    var nextOk := ValidateManagedRouteOwnership(next);
    if !nextOk {
      if Countable(NextClaims(View(prior).claims, o, DesiredView(desired))) {
        NextIsValid(prior, o, specs, t, next);
      }
      return Refused(InvalidResult);
    }
    return Reconciled(mutation, next);
  }

  lemma DesiredViewValid(desired: seq<Spec>)
    requires ValidDesiredSpecs(desired) && DistinctSpecs(desired)
    ensures ValidDesired(DesiredView(desired))
  {
    hide ValidLabel, Canonical4, Describe;
    DesiredViewOf(desired);
    forall p, l | p in DesiredView(desired) && l in DesiredView(desired)[p] ensures ValidLabel(l) {
      var s :| s in desired && s.prefix == p;
      assert l in s.labels;
    }
  }

  lemma NextIsValid(prior: Ledger, o: Str, desired: seq<Spec>, t: Table, next: Ledger)
    requires ValidLedger(prior) && ValidDesiredSpecs(desired) && DistinctSpecs(desired) && WellFormed(next)
    requires View(next) == NextBook(View(prior), o, DesiredView(desired), t)
    requires Countable(NextClaims(View(prior).claims, o, DesiredView(desired)))
    ensures ValidLedger(next)
  {
    hide ValidLedger, ValidDesiredSpecs, NextBook, Countable, View, DesiredView, NextClaims, WellFormed;
    ValidLedgerIsValidBook(prior);
    DesiredViewValid(desired);
    SendKeepsValid(View(prior), o, DesiredView(desired), t);
    ValidBookIsValidLedger(next);
  }

  /** No complaint about any entry. */
  predicate NoComplaint(next: Ledger, mutation: RouteMutation, present: Table) {
    && (forall k :: 0 <= k < |next.routes| ==> next.routes[k].prefix in present)
    && (forall k :: 0 <= k < |next.routes| && next.routes[k].created ==>
      present[next.routes[k].prefix] == next.routes[k].description)
    && (forall k :: 0 <= k < |mutation.remove| ==> mutation.remove[k] !in present)
  }

  ghost function ChangeView(m: RouteMutation): Change {
    Change(TableView(m.upsert), Elements(m.remove))
  }

  /** `verifyManagedRouteMutation`: an empty list of complaints. */
  method VerifyManagedRouteMutation(next: Ledger, mutation: RouteMutation, current: seq<Spec>) returns (ok: bool)
    ensures ok <==> (ValidCurrent(current) && NoComplaint(next, mutation, TableView(current)))
    ensures ValidLedger(next) ==>
      (ok <==> (ValidCurrent(current) && Verified(View(next), ChangeView(mutation), TableView(current))))
  {
    hide ValidCurrent, TableView, Canonical4, ValidLedger, View, ChangeView;
    var currentOk, present := CurrentSpecMap(current);
    if !currentOk {
      return false;
    }
    var missing, mismatched, remaining := 0, 0, 0;
    for i := 0 to |next.routes|
      invariant missing == 0 <==> forall k :: 0 <= k < i ==> next.routes[k].prefix in present
      invariant missing == 0 ==> (mismatched == 0 <==>
        forall k :: 0 <= k < i && next.routes[k].created ==>
          present[next.routes[k].prefix] == next.routes[k].description)
      invariant missing >= 0 && mismatched >= 0
    {
      var route := next.routes[i];
      if route.prefix !in present {
        missing := missing + 1;
      } else if route.created && present[route.prefix] != route.description {
        mismatched := mismatched + 1;
      }
    }
    for i := 0 to |mutation.remove|
      invariant remaining >= 0 && (remaining == 0 <==> forall k :: 0 <= k < i ==> mutation.remove[k] !in present)
    {
      if mutation.remove[i] in present {
        remaining := remaining + 1;
      }
    }
    ok := missing == 0 && mismatched == 0 && remaining == 0;
    if ValidLedger(next) {
      VerifiedSlices(next, mutation, present);
    }
  }

  lemma VerifiedSlices(next: Ledger, mutation: RouteMutation, present: Table)
    requires ValidLedger(next)
    ensures Verified(View(next), ChangeView(mutation), present) <==> NoComplaint(next, mutation, present)
  {
    hide TableView, ClaimView, Canonical4, ValidDescription, ValidClaims, ValidScope, Agrees, RouteView;
    RouteViewOf(next.routes);
    forall k | 0 <= k < |next.routes|
      ensures next.routes[k].prefix in RouteView(next.routes)
      ensures RouteView(next.routes)[next.routes[k].prefix] == Owned(next.routes[k].description, next.routes[k].created)
    {
      assert next.routes[k] in next.routes;
    }
    forall k | 0 <= k < |mutation.remove| ensures mutation.remove[k] in Elements(mutation.remove) {
    }
    if NoComplaint(next, mutation, present) {
      forall p | p in RouteView(next.routes)
        ensures p in present &&
          (RouteView(next.routes)[p].created ==> present[p] == RouteView(next.routes)[p].description)
      {
        var r :| r in next.routes && r.prefix == p;
      }
    }
  }
}
