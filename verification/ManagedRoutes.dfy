/** The ledger as the slices the store hands over, and the loops that validate and
    reconcile it: internal/application/managed_routes.go. Every method is proved
    against the value model in RouteLedger. */
module ManagedRoutes {
  import opened Text
  import opened Net
  import opened RouteLabels
  import opened RouteLedger
  import opened Sorting
  import Utf8

  datatype Scope = Scope(endpoint: Str, target: Str, iface: Str)

  datatype Spec = Spec(prefix: Prefix, description: Str, labels: seq<Str>)

  datatype Route = Route(prefix: Prefix, description: Str, created: bool)

  datatype Claim = Claim(output: Str, prefix: Prefix, description: Str, labels: seq<Str>)

  datatype Ledger = Ledger(scope: Scope, routes: seq<Route>, claims: seq<Claim>)

  datatype RouteMutation = RouteMutation(upsert: seq<Spec>, remove: seq<Prefix>)

  datatype Refusal = InvalidOutput | InvalidLedger | InvalidDesired | InvalidCurrent | InvalidResult

  datatype Reconciled = Reconciled(mutation: RouteMutation, next: Ledger) | Refused(reason: Refusal)

  /** `isHexID`: 32 lower-case hexadecimal digits. */
  predicate IsHexID(id: Str) {
    |id| == 32 && forall i :: 0 <= i < 32 ==> 48 <= id[i] <= 57 || 97 <= id[i] <= 102
  }

  const DIGITS := set b: Byte | 48 <= b < 58
  const A_TO_F := {97, 98, 99, 100, 101, 102}

  lemma HexDigits(id: Str)
    ensures IsHexID(id) <==> |id| == 32 && Elements(id) <= DIGITS + A_TO_F
  {
    if |id| == 32 && Elements(id) <= DIGITS + A_TO_F {
      forall i | 0 <= i < 32 ensures id[i] in DIGITS + A_TO_F {
        assert id[i] in Elements(id);
      }
    }
  }

  predicate ScopeText(s: Str) {
    s != [] && |s| <= 512 && Utf8.Valid(s) && ControlFree(s)
  }

  predicate ValidScope(s: Scope) {
    && ScopeText(s.endpoint) && ScopeText(s.target) && ScopeText(s.iface)
    && |s.target| <= 64 && |Utf8.Runes(s.iface)| <= 120
  }

  /** The bounds of the three parts, for plain text. */
  lemma PlainScope(s: Scope)
    requires Plain(s.endpoint) && Plain(s.target) && Plain(s.iface)
    ensures ValidScope(s) <==> 0 < |s.endpoint| <= 512 && 0 < |s.target| <= 64 && 0 < |s.iface| <= 120
  {
    PlainRunes(s.endpoint);
    PlainRunes(s.target);
    PlainRunes(s.iface);
    SinglesSize(s.iface);
  }

  // ---------------------------------------------------------------- views

  predicate DistinctRoutes(routes: seq<Route>) {
    forall i, j :: 0 <= i < j < |routes| ==> routes[i].prefix != routes[j].prefix
  }

  predicate DistinctClaims(claims: seq<Claim>) {
    forall i, j :: 0 <= i < j < |claims| ==>
      claims[i].output != claims[j].output || claims[i].prefix != claims[j].prefix
  }

  ghost function RouteView(routes: seq<Route>): map<Prefix, Owned> {
    if routes == [] then map[]
    else var r := routes[|routes| - 1];
      RouteView(routes[..|routes| - 1])[r.prefix := Owned(r.description, r.created)]
  }

  ghost function ClaimView(claims: seq<Claim>): Claims {
    if claims == [] then map[]
    else var c := claims[|claims| - 1];
      ClaimView(claims[..|claims| - 1])[(c.output, c.prefix) := Elements(c.labels)]
  }

  ghost function View(l: Ledger): Book {
    Book(RouteView(l.routes), ClaimView(l.claims))
  }

  /** `labelsByPrefix`: the labels of every claim on a prefix, in claim order. */
  function LabelMap(claims: seq<Claim>): map<Prefix, seq<Str>> {
    if claims == [] then map[]
    else var c := claims[|claims| - 1];
      var before := LabelMap(claims[..|claims| - 1]);
      before[c.prefix := (if c.prefix in before then before[c.prefix] else []) + c.labels]
  }

  /** A slice of specs as the table it describes. */
  function TableView(specs: seq<Spec>): Table {
    if specs == [] then map[]
    else var s := specs[|specs| - 1]; TableView(specs[..|specs| - 1])[s.prefix := s.description]
  }

  ghost function DesiredView(specs: seq<Spec>): Desired {
    if specs == [] then map[]
    else var s := specs[|specs| - 1];
      var before := DesiredView(specs[..|specs| - 1]);
      before[s.prefix := (if s.prefix in before then before[s.prefix] else {}) + Elements(s.labels)]
  }

  predicate DistinctSpecs(specs: seq<Spec>) {
    forall i, j :: 0 <= i < j < |specs| ==> specs[i].prefix != specs[j].prefix
  }

  lemma {:induction false} RouteViewOf(routes: seq<Route>)
    requires DistinctRoutes(routes)
    ensures RouteView(routes).Keys == set r | r in routes :: r.prefix
    ensures forall r :: r in routes ==>
      r.prefix in RouteView(routes) && RouteView(routes)[r.prefix] == Owned(r.description, r.created)
  {
    if routes != [] {
      var n := |routes| - 1;
      RouteViewOf(routes[..n]);
      assert routes == routes[..n] + [routes[n]];
    }
  }

  lemma SameRoutes(a: seq<Route>, b: seq<Route>)
    requires DistinctRoutes(a) && DistinctRoutes(b) && forall r :: r in a <==> r in b
    ensures RouteView(a) == RouteView(b)
  {
    RouteViewOf(a);
    RouteViewOf(b);
  }

  lemma {:induction false} ClaimViewOf(claims: seq<Claim>)
    requires DistinctClaims(claims)
    ensures ClaimView(claims).Keys == set c | c in claims :: (c.output, c.prefix)
    ensures forall c :: c in claims ==>
      (c.output, c.prefix) in ClaimView(claims) && ClaimView(claims)[(c.output, c.prefix)] == Elements(c.labels)
  {
    hide Elements;
    if claims != [] {
      var n := |claims| - 1;
      ClaimViewOf(claims[..n]);
      assert claims == claims[..n] + [claims[n]];
    }
  }

  lemma SameClaims(a: seq<Claim>, b: seq<Claim>)
    requires DistinctClaims(a) && DistinctClaims(b) && forall c :: c in a <==> c in b
    ensures ClaimView(a) == ClaimView(b)
  {
    hide Elements;
    ClaimViewOf(a);
    ClaimViewOf(b);
  }

  lemma {:induction false} TableViewOf(specs: seq<Spec>)
    requires DistinctSpecs(specs)
    ensures TableView(specs).Keys == set s | s in specs :: s.prefix
    ensures forall s :: s in specs ==> s.prefix in TableView(specs) && TableView(specs)[s.prefix] == s.description
  {
    if specs != [] {
      var n := |specs| - 1;
      TableViewOf(specs[..n]);
      assert specs == specs[..n] + [specs[n]];
    }
  }

  lemma {:induction false} DesiredViewOf(specs: seq<Spec>)
    requires DistinctSpecs(specs)
    ensures DesiredView(specs).Keys == set s | s in specs :: s.prefix
    ensures forall s :: s in specs ==>
      s.prefix in DesiredView(specs) && DesiredView(specs)[s.prefix] == Elements(s.labels)
  {
    hide Elements;
    if specs != [] {
      var n := |specs| - 1;
      DesiredViewOf(specs[..n]);
      assert specs == specs[..n] + [specs[n]];
      assert forall s :: s in specs[..n] ==> s.prefix != specs[n].prefix;
    }
  }

  lemma SameSpecs(a: seq<Spec>, b: seq<Spec>)
    requires DistinctSpecs(a) && DistinctSpecs(b) && forall s :: s in a <==> s in b
    ensures TableView(a) == TableView(b) && DesiredView(a) == DesiredView(b)
  {
    hide Elements;
    TableViewOf(a);
    TableViewOf(b);
    DesiredViewOf(a);
    DesiredViewOf(b);
  }

  /** The labels gathered per prefix are the labels of its claims. */
  lemma {:induction false} LabelMapOf(claims: seq<Claim>)
    requires DistinctClaims(claims)
    ensures LabelMap(claims).Keys == Claimed(ClaimView(claims))
    ensures forall p :: p in LabelMap(claims) ==> Elements(LabelMap(claims)[p]) == LabelsOn(ClaimView(claims), p)
  {
    if claims != [] {
      var n := |claims| - 1;
      var c, front := claims[n], claims[..n];
      LabelMapOf(front);
      ClaimViewOf(front);
      var view, key := ClaimView(front), (c.output, c.prefix);
      assert key !in view;
      forall p | p in LabelMap(claims)
        ensures Elements(LabelMap(claims)[p]) == LabelsOn(ClaimView(claims), p)
      {
        LabelsWithClaim(view, key, Elements(c.labels), p);
        var before := if p in LabelMap(front) then LabelMap(front)[p] else [];
        assert Elements(before + c.labels) == Elements(before) + Elements(c.labels);
        if p !in LabelMap(front) {
          assert LabelsOn(view, p) == {};
        }
      }
      assert Claimed(ClaimView(claims)) == Claimed(view) + {c.prefix} by {
        assert key in ClaimView(claims);
        forall k | k in view ensures k in ClaimView(claims) {
        }
      }
    }
  }

  lemma LabelsWithClaim(view: Claims, key: (Str, Prefix), labels: set<Str>, p: Prefix)
    requires key !in view
    ensures LabelsOn(view[key := labels], p) == LabelsOn(view, p) + (if key.1 == p then labels else {})
  {
    var next := view[key := labels];
    forall l | l in LabelsOn(view, p) ensures l in LabelsOn(next, p) {
      var k :| k in view && k.1 == p && l in view[k];
      assert k in next && next[k] == view[k];
    }
    if key.1 == p {
      assert key in next && next[key] == labels;
    }
  }

  // ---------------------------------------------------------------- validity

  ghost predicate ValidRoutes(routes: seq<Route>) {
    && DistinctRoutes(routes)
    && forall i :: 0 <= i < |routes| ==> Canonical4(routes[i].prefix) && ValidDescription(routes[i].description)
  }

  ghost predicate WellFormedClaim(c: Claim) {
    && IsHexID(c.output) && Canonical4(c.prefix) && CanonicalLabels(c.labels)
    && c.description == Describe(Elements(c.labels))
  }

  ghost predicate ValidClaims(claims: seq<Claim>, routes: map<Prefix, Owned>) {
    && DistinctClaims(claims)
    && forall i :: 0 <= i < |claims| ==> WellFormedClaim(claims[i]) && claims[i].prefix in routes
  }

  ghost predicate Agrees(owned: Owned, labels: set<Str>) {
    && (!owned.created ==> owned.description == [])
    && (owned.created && Describe(labels) != [] ==> owned.description == Describe(labels))
  }

  /** What `validateManagedRouteOwnership` accepts. */
  ghost predicate ValidLedger(l: Ledger) {
    && ValidScope(l.scope)
    && ValidRoutes(l.routes)
    && ValidClaims(l.claims, RouteView(l.routes))
    && RouteView(l.routes).Keys == LabelMap(l.claims).Keys
    && forall p :: p in RouteView(l.routes) ==> Agrees(RouteView(l.routes)[p], Elements(LabelMap(l.claims)[p]))
  }

  lemma ValidLedgerIsValidBook(l: Ledger)
    requires ValidLedger(l)
    ensures ValidBook(View(l))
  {
    hide Describe, ValidLabel, ValidDescription, ValidScope, Canonical4, IsHexID;
    RouteViewOf(l.routes);
    ClaimViewOf(l.claims);
    LabelMapOf(l.claims);
    var b := View(l);
    forall k, x | k in b.claims && x in b.claims[k] ensures ValidLabel(x) {
      var c :| c in l.claims && (c.output, c.prefix) == k;
      assert WellFormedClaim(c);
      assert x in c.labels;
    }
    forall p | p in b.routes ensures ValidDescription(b.routes[p].description) {
      var r :| r in l.routes && r.prefix == p;
    }
    forall p | p in b.routes ensures Agrees(b.routes[p], LabelsOn(b.claims, p)) {
    }
  }

  /** What `validateManagedRouteOwnership` asks of single entries. */
  ghost predicate WellFormed(l: Ledger) {
    && ValidScope(l.scope) && DistinctRoutes(l.routes) && DistinctClaims(l.claims)
    && (forall i :: 0 <= i < |l.routes| ==> Canonical4(l.routes[i].prefix))
    && (forall i :: 0 <= i < |l.claims| ==> WellFormedClaim(l.claims[i]))
  }

  lemma BookRoutesValid(l: Ledger)
    requires WellFormed(l) && ValidBook(View(l))
    ensures ValidRoutes(l.routes)
  {
    hide Describe, ValidLabel, ValidDescription, ValidScope, Canonical4, WellFormedClaim, LabelsOn, ClaimView,
      RouteView, Claimed, LabelsValid;
    RouteViewOf(l.routes);
    forall i | 0 <= i < |l.routes| ensures ValidDescription(l.routes[i].description) {
      assert l.routes[i] in l.routes;
    }
  }

  lemma BookClaimsValid(l: Ledger)
    requires WellFormed(l) && ValidBook(View(l))
    ensures ValidClaims(l.claims, RouteView(l.routes))
  {
    hide Describe, ValidLabel, ValidDescription, ValidScope, Canonical4, WellFormedClaim, LabelsOn, ClaimView,
      RouteView, LabelsValid;
    ClaimViewOf(l.claims);
    forall i | 0 <= i < |l.claims| ensures l.claims[i].prefix in RouteView(l.routes) {
      assert l.claims[i] in l.claims;
      assert (l.claims[i].output, l.claims[i].prefix) in ClaimView(l.claims);
    }
  }

  /** The slices a reconciliation ends with are a valid ledger as soon as the
      values they stand for are. */
  lemma ValidBookIsValidLedger(l: Ledger)
    requires WellFormed(l) && ValidBook(View(l))
    ensures ValidLedger(l)
  {
    hide Describe, ValidLabel, ValidDescription, ValidScope, Canonical4, WellFormedClaim, LabelsOn, ClaimView,
      RouteView, ValidRoutes, ValidClaims, LabelMap, Claimed, LabelsValid;
    BookRoutesValid(l);
    BookClaimsValid(l);
    LabelMapOf(l.claims);
  }

  lemma EmptyRoutes()
    ensures ValidRoutes([]) && RouteView([]) == map[]
  {
  }

  lemma RoutesStep(routes: seq<Route>, i: nat)
    requires i < |routes| && ValidRoutes(routes[..i])
    ensures ValidRoutes(routes[..i + 1]) <==>
      Canonical4(routes[i].prefix) && ValidDescription(routes[i].description) &&
      routes[i].prefix !in RouteView(routes[..i])
    ensures RouteView(routes[..i + 1]) ==
      RouteView(routes[..i])[routes[i].prefix := Owned(routes[i].description, routes[i].created)]
    ensures ValidRoutes(routes) ==> ValidRoutes(routes[..i + 1])
  {
    hide Canonical4, ValidDescription, RouteView;
    RouteViewStep(routes, i);
    var front, more := routes[..i], routes[..i + 1];
    RouteViewOf(front);
    assert forall j :: 0 <= j < i ==> more[j] == front[j] == routes[j];
    assert more[i] == routes[i];
    forall j | 0 <= j < i ensures routes[i].prefix !in RouteView(front) ==> more[j].prefix != more[i].prefix {
      assert front[j] in front;
    }
    if routes[i].prefix in RouteView(front) {
      var r :| r in front && r.prefix == routes[i].prefix;
      var j :| 0 <= j < i && front[j] == r;
      assert more[j].prefix == more[i].prefix;
    }
  }

  lemma RouteViewStep(routes: seq<Route>, i: nat)
    requires i < |routes|
    ensures RouteView(routes[..i + 1]) ==
      RouteView(routes[..i])[routes[i].prefix := Owned(routes[i].description, routes[i].created)]
  {
    assert routes[..i + 1][..i] == routes[..i];
  }

  method ValidateRoutes(routes: seq<Route>) returns (ok: bool, m: map<Prefix, Owned>)
    ensures ok <==> ValidRoutes(routes)
    ensures ok ==> m == RouteView(routes)
  {
    hide ValidRoutes, ValidDescription, Canonical4, RouteView;
    m := map[];
    assert ValidRoutes(routes[..0]) && RouteView(routes[..0]) == map[] by {
      EmptyRoutes();
    }
    var i := 0;
    while i < |routes|
      invariant 0 <= i <= |routes| && ValidRoutes(routes[..i]) && m == RouteView(routes[..i])
    {
      var r := routes[i];
      RoutesStep(routes, i);
      if !Canonical4(r.prefix) || !ValidDescription(r.description) {
        return false, m;
      }
      if r.prefix in m {
        return false, m;
      }
      m := m[r.prefix := Owned(r.description, r.created)];
      i := i + 1;
    }
    assert routes[..i] == routes;
    return true, m;
  }

  method CanonicalManagedLabels(labels: seq<Str>) returns (ok: bool, stable: seq<Str>)
    ensures stable == Stable(labels) && (ok <==> ValidLabels(stable))
    ensures ok && stable == labels <==> CanonicalLabels(labels)
  {
    hide ValidLabel, Stable;
    stable := Stable(labels);
    StableSorts(labels);
    if Increasing(labels) {
      StableFixed(labels);
    }
    var i := 0;
    while i < |stable|
      invariant 0 <= i <= |stable| && ValidLabels(stable[..i])
    {
      if !ValidLabel(stable[i]) {
        return false, stable;
      }
      assert stable[..i + 1] == stable[..i] + [stable[i]];
      i := i + 1;
    }
    assert stable[..i] == stable;
    return true, stable;
  }

  /** Labels and description are a canonical pair. */
  method CanonicalPair(labels: seq<Str>, description: Str) returns (ok: bool)
    ensures ok <==> CanonicalLabels(labels) && description == Describe(Elements(labels))
  {
    var canonical, stable := CanonicalManagedLabels(labels);
    var d := CompactManagedRouteDescription(stable);
    StableSorts(labels);
    return canonical && stable == labels && description == d;
  }

  method AddLabels(m: map<Prefix, seq<Str>>, p: Prefix, labels: seq<Str>) returns (r: map<Prefix, seq<Str>>)
    ensures r == m[p := (if p in m then m[p] else []) + labels]
  {
    if p in m {
      r := m[p := m[p] + labels];
    } else {
      r := m[p := [] + labels];
    }
  }

  method ValidateClaims(claims: seq<Claim>, routes: map<Prefix, Owned>)
    returns (ok: bool, labels: map<Prefix, seq<Str>>)
    ensures ok <==> ValidClaims(claims, routes)
    ensures ok ==> labels == LabelMap(claims)
  {
    hide CanonicalLabels, Canonical4, IsHexID, Describe, Elements;
    var seen: set<(Str, Prefix)> := {};
    labels := map[];
    var i := 0;
    while i < |claims|
      invariant 0 <= i <= |claims| && ValidClaims(claims[..i], routes) && labels == LabelMap(claims[..i])
      invariant seen == set j | 0 <= j < i :: (claims[j].output, claims[j].prefix)
    {
      var c := claims[i];
      assert claims[..i + 1][..i] == claims[..i];
      var pair := CanonicalPair(c.labels, c.description);
      if !IsHexID(c.output) || !Canonical4(c.prefix) || !pair || c.prefix !in routes {
        return false, labels;
      }
      if (c.output, c.prefix) in seen {
        return false, labels;
      }
      seen := seen + {(c.output, c.prefix)};
      labels := AddLabels(labels, c.prefix, c.labels);
      i := i + 1;
    }
    assert claims[..i] == claims;
    return true, labels;
  }

  lemma {:induction false} ClaimedPrefixes(claims: seq<Claim>)
    ensures forall p :: p in LabelMap(claims) <==> exists i :: 0 <= i < |claims| && claims[i].prefix == p
  {
    if claims != [] {
      ClaimedPrefixes(claims[..|claims| - 1]);
    }
  }

  lemma {:induction false} SubsetOfSameSize<T>(a: set<T>, b: set<T>)
    requires a <= b && |a| == |b|
    ensures a == b
  {
    if x :| x in b && x !in a {
      SubsetSize(a, b - {x});
    }
  }

  /** `validateManagedRouteOwnership`. */
  method ValidateManagedRouteOwnership(l: Ledger) returns (ok: bool)
    ensures ok <==> ValidLedger(l)
  {
    hide Describe, ValidScope, ValidRoutes, LabelMap, RouteView, WellFormedClaim, DistinctClaims;
    if !ValidScope(l.scope) {
      return false;
    }
    var routesOk, routes := ValidateRoutes(l.routes);
    if !routesOk {
      return false;
    }
    var claimsOk, labels := ValidateClaims(l.claims, routes);
    if !claimsOk {
      return false;
    }
    ClaimedPrefixes(l.claims);
    if |labels| != |routes| {
      return false;
    }
    SubsetOfSameSize(labels.Keys, routes.Keys);
    var rest := routes.Keys;
    while rest != {}
      invariant rest <= routes.Keys
      invariant forall p :: p in routes && p !in rest ==> Agrees(routes[p], Elements(labels[p]))
      decreases |rest|
    {
      var p :| p in rest;
      if !routes[p].created && routes[p].description != [] {
        return false;
      }
      var expected := CompactManagedRouteDescription(labels[p]);
      if routes[p].created && expected != [] && routes[p].description != expected {
        return false;
      }
      rest := rest - {p};
    }
    return true;
  }
}
