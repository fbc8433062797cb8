/** What the sorted slices of `reconcileManagedRoutes` add to the value model: a
    ledger has one canonical form, so two sends that agree as values agree byte
    for byte, and the exact place where they can disagree. */
module Convergence {
  import opened Text
  import opened Net
  import opened RouteLabels
  import opened RouteLedger
  import opened ManagedRoutes
  import opened Reconciliation
  import opened Sorting
  import Utf8

  /** Two valid ledgers in canonical order that say the same are the same. */
  lemma CanonicalLedger(a: Ledger, b: Ledger)
    requires ValidLedger(a) && ValidLedger(b) && Ordered(a) && Ordered(b)
    requires a.scope == b.scope && View(a) == View(b)
    ensures a == b
  {
    hide ValidLedger, RouteView, ClaimView;
    RouteMembers(a, b);
    RouteMembers(b, a);
    ClaimMembers(a, b);
    ClaimMembers(b, a);
    PrefixOrder();
    ClaimOrder();
    AscendingUnique(a.routes, b.routes, (x: Route, y: Route) => PrefixBefore(x.prefix, y.prefix));
    AscendingUnique(a.claims, b.claims, ClaimBefore);
  }

  lemma RouteMembers(a: Ledger, b: Ledger)
    requires ValidLedger(a) && ValidLedger(b) && View(a) == View(b)
    ensures forall r :: r in a.routes ==> r in b.routes
  {
    hide RouteView, ClaimView, ValidClaims, Agrees, Canonical4, ValidDescription, ValidScope;
    RouteViewOf(a.routes);
    RouteViewOf(b.routes);
    forall r | r in a.routes ensures r in b.routes {
      assert r.prefix in RouteView(b.routes);
      var x :| x in b.routes && x.prefix == r.prefix;
    }
  }

  lemma ClaimMembers(a: Ledger, b: Ledger)
    requires ValidLedger(a) && ValidLedger(b) && View(a) == View(b)
    ensures forall c :: c in a.claims ==> c in b.claims
  {
    hide RouteView, ClaimView, ValidRoutes, Agrees, Canonical4, ValidLabels, ValidScope, Describe, Elements;
    ClaimViewOf(a.claims);
    ClaimViewOf(b.claims);
    forall c | c in a.claims ensures c in b.claims {
      assert (c.output, c.prefix) in ClaimView(b.claims);
      var x :| x in b.claims && (x.output, x.prefix) == (c.output, c.prefix);
      assert WellFormedClaim(c) && WellFormedClaim(x);
      IncreasingUnique(c.labels, x.labels);
    }
  }

  lemma FirstElement<T>(s: seq<T>)
    ensures s == [] || (s[0] in s && s[0] in Elements(s))
  {
  }

  lemma NothingToDo(m: RouteMutation)
    requires DistinctSpecs(m.upsert) && ChangeView(m) == Change(map[], {})
    ensures m == RouteMutation([], [])
  {
    TableViewOf(m.upsert);
    FirstElement(m.upsert);
    FirstElement(m.remove);
  }

  lemma OrderedIsDistinct(s: seq<Spec>)
    requires OrderedSpecs(s)
    ensures DistinctSpecs(s)
  {
    hide Key;
    PrefixOrder();
  }

  /** Sending the same output again, to a router that shows what the first send
      asked for, writes nothing and leaves the ledger as it is, slice for slice. */
  lemma SendingAgain(prior: Ledger, o: Str, desired: seq<Spec>, current: seq<Spec>, m: RouteMutation, next: Ledger,
      seen: seq<Spec>, m': RouteMutation, next': Ledger)
    requires Acceptable(prior, o, desired, current) && Answers(prior, o, desired, current, m, next)
    requires TableView(seen) == Apply(TableView(current), ChangeView(m))
    requires Answers(next, o, desired, seen, m', next')
    ensures m' == RouteMutation([], []) && next' == next
  {
    hide ValidLedger, View, DesiredView, TableView, NextBook, Mutation, Ordered, OrderedSpecs, OrderedPrefixes,
      LabelsOn, Sorted, ChangeView, ValidDesiredSpecs, ValidCurrent, ValidBook, IsHexID;
    ValidLedgerIsValidBook(prior);
    Convergent(View(prior), o, DesiredView(desired), TableView(current));
    OrderedIsDistinct(m'.upsert);
    NothingToDo(m');
    CanonicalLedger(next', next);
  }

  ghost predicate Sourced(claims: Claims, da: Desired, db: Desired) {
    Labelled(claims) && (forall p :: p in da ==> da[p] != {}) && (forall p :: p in db ==> db[p] != {})
  }

  /** Two outputs send one after the other, with the router read in between. When
      every claim names its lists, both orders leave the same ledger slices and the
      same router table. */
  lemma SendsCommuteAsSlices(prior: Ledger, a: Str, da: seq<Spec>, b: Str, db: seq<Spec>, current: seq<Spec>,
      ma: RouteMutation, la: Ledger, ta: seq<Spec>, mab: RouteMutation, lab: Ledger,
      mb: RouteMutation, lb: Ledger, tb: seq<Spec>, mba: RouteMutation, lba: Ledger)
    requires a != b && Sourced(View(prior).claims, DesiredView(da), DesiredView(db))
    requires Acceptable(prior, a, da, current) && Answers(prior, a, da, current, ma, la)
    requires TableView(ta) == Apply(TableView(current), ChangeView(ma)) && Answers(la, b, db, ta, mab, lab)
    requires Acceptable(prior, b, db, current) && Answers(prior, b, db, current, mb, lb)
    requires TableView(tb) == Apply(TableView(current), ChangeView(mb)) && Answers(lb, a, da, tb, mba, lba)
    ensures lab == lba
    ensures Apply(TableView(ta), ChangeView(mab)) == Apply(TableView(tb), ChangeView(mba))
  {
    hide ValidLedger, View, DesiredView, TableView, NextBook, Mutation, Ordered, OrderedSpecs, OrderedPrefixes,
      LabelsOn, Sorted, ChangeView, ValidDesiredSpecs, ValidCurrent, ValidBook, IsHexID, SameFallback, Sourced,
      ValidDesired, LabelsValid;
    ValidLedgerIsValidBook(prior);
    ValidLedgerIsValidBook(la);
    ValidLedgerIsValidBook(lb);
    var w := World(View(prior), TableView(current));
    DesiredLabelsValid(da);
    DesiredLabelsValid(db);
    assert LabelsValid(w.book.claims) by {
      BookLabelsValid(w.book);
    }
    assert Labelled(w.book.claims) && (forall p :: p in DesiredView(da) ==> DesiredView(da)[p] != {}) &&
      (forall p :: p in DesiredView(db) ==> DesiredView(db)[p] != {}) by {
      SourcedMeans(w.book.claims, DesiredView(da), DesiredView(db));
    }
    LabelledFallback(w, a, DesiredView(da), b, DesiredView(db));
    SendsCommuteIff(w, a, DesiredView(da), b, DesiredView(db));
    CanonicalLedger(lab, lba);
  }

  lemma SourcedMeans(claims: Claims, da: Desired, db: Desired)
    requires Sourced(claims, da, db)
    ensures Labelled(claims) && (forall p :: p in da ==> da[p] != {}) && (forall p :: p in db ==> db[p] != {})
  {
  }

  lemma {:induction false} DesiredLabelsValid(desired: seq<Spec>)
    requires ValidDesiredSpecs(desired)
    ensures ValidDesired(DesiredView(desired))
  {
    hide ValidLabel, Canonical4, Describe;
    if desired != [] {
      assert ValidDesiredSpecs(desired[..|desired| - 1]);
      DesiredLabelsValid(desired[..|desired| - 1]);
    }
  }

  // -------------------------------------------------------- where they differ

  /** The router and ledger after output `a` created `p` with one label. */
  ghost function OneRoute(a: Str, p: Prefix, l: Str): World {
    World(Book(map[p := Owned(Describe({l}), true)], map[(a, p) := {l}]), map[p := Describe({l})])
  }

  lemma OneRouteValid(a: Str, p: Prefix, l: Str)
    requires ValidLabel(l)
    ensures ValidBook(OneRoute(a, p, l).book) && Describe({l}) != []
  {
    hide ValidLabel, Describe, ValidDescription;
    var w := OneRoute(a, p, l);
    DescribeIsValid({l});
    DescribeIsEmpty({l});
    OneClaim(a, p, {l});
    assert (a, p) in w.book.claims;
  }

  lemma OneClaim(a: Str, p: Prefix, labels: set<Str>)
    ensures LabelsOn(map[(a, p) := labels], p) == labels && Claimed(map[(a, p) := labels]) == {p}
  {
    var claims: Claims := map[(a, p) := labels];
    assert (a, p) in claims;
  }

  lemma TwoClaims(a: Str, b: Str, p: Prefix, labels: set<Str>)
    requires a != b
    ensures var claims: Claims := map[(a, p) := labels, (b, p) := {}];
      LabelsOn(claims, p) == labels && Claimed(claims) == {p}
  {
    var claims: Claims := map[(a, p) := labels, (b, p) := {}];
    assert (a, p) in claims && (b, p) in claims;
  }

  lemma ClaimSteps(a: Str, b: Str, p: Prefix, labels: set<Str>)
    requires a != b
    ensures var one: Claims := map[(a, p) := labels]; NextClaims(one, a, map[]) == map[]
    ensures var one: Claims := map[(a, p) := labels];
      NextClaims(one, b, map[p := {}]) == map[(a, p) := labels, (b, p) := {}]
    ensures NextClaims(map[], b, map[p := {}]) == map[(b, p) := {}]
    ensures var both: Claims := map[(a, p) := labels, (b, p) := {}]; NextClaims(both, a, map[]) == map[(b, p) := {}]
  {
    var one: Claims, both: Claims, none: Claims := map[(a, p) := labels], map[(a, p) := labels, (b, p) := {}], map[];
    NextClaimsOf(one, a, map[]);
    NextClaimsOf(one, b, map[p := {}]);
    NextClaimsOf(none, b, map[p := {}]);
    NextClaimsOf(both, a, map[]);
    forall k: (Str, Prefix)
      ensures k !in NextClaims(one, a, map[])
      ensures k in NextClaims(one, b, map[p := {}]) <==> k in both
      ensures k in both ==> NextClaims(one, b, map[p := {}])[k] == both[k]
      ensures k in NextClaims(none, b, map[p := {}]) <==> k == (b, p)
      ensures k in NextClaims(both, a, map[]) <==> k == (b, p)
    {
      assert k == (k.0, k.1);
    }
  }

  /** `a` first: the route is removed and made again without a description. */
  lemma OwnerFirst(a: Str, b: Str, p: Prefix, l: Str)
    requires a != b
    ensures var w := OneRoute(a, p, l); Send(Send(w, a, map[]), b, map[p := {}]).table == map[p := []]
  {
    hide Describe, NextClaims, LabelsOn;
    var w := OneRoute(a, p, l);
    ClaimSteps(a, b, p, {l});
    OneClaim(b, p, {});
    EmptyDescription();
    var mid := Send(w, a, map[]);
    assert mid.book == Book(map[], map[]) && mid.table == map[];
  }

  /** `b` first: the route keeps the label of `a`. */
  lemma OwnerLast(a: Str, b: Str, p: Prefix, l: Str)
    requires a != b
    ensures var w := OneRoute(a, p, l);
      Send(Send(w, b, map[p := {}]), a, map[]).table == map[p := Describe({l})]
  {
    hide Describe, NextClaims, LabelsOn;
    var w := OneRoute(a, p, l);
    ClaimSteps(a, b, p, {l});
    TwoClaims(a, b, p, {l});
    OneClaim(b, p, {});
    EmptyDescription();
    var mid := Send(w, b, map[p := {}]);
    assert mid.book.routes == w.book.routes && mid.table == w.table;
  }

  /** Without labels the order of two sends can matter. Output `a` created `p` and
      gives it up; output `b` claims `p` without provenance. When `a` goes first the
      route is removed and made again with an empty description; when `b` goes
      first the route keeps the label of `a`. This happens for every label. */
  lemma UnlabelledSendsDiffer(a: Str, b: Str, p: Prefix, l: Str)
    requires a != b && ValidLabel(l)
    ensures var w := OneRoute(a, p, l);
      && ValidBook(w.book)
      && Send(Send(w, a, map[]), b, map[p := {}]).table == map[p := []]
      && Send(Send(w, b, map[p := {}]), a, map[]).table == map[p := Describe({l})]
      && Describe({l}) != []
  {
    OneRouteValid(a, p, l);
    OwnerFirst(a, b, p, l);
    OwnerLast(a, b, p, l);
  }

  lemma EmptyDescription()
    ensures Describe({}) == []
  {
  }

  /** There is a valid label, so the family above is not empty. */
  lemma SomeLabel()
    ensures ValidLabel([OPEN, 97, SEPARATOR, 98, CLOSE])
  {
    var l := [OPEN, 97, SEPARATOR, 98, CLOSE];
    AsciiIsValid(l);
    assert Inner(l) == [97, SEPARATOR, 98];
    assert [97, SEPARATOR, 98][..1] == [97] && [97, SEPARATOR, 98][2..] == [98];
    OneLetter(97);
    OneLetter(98);
  }

  lemma OneLetter(x: Byte)
    requires 97 <= x <= 122
    ensures ValidSegment([x])
  {
    AsciiIsValid([x]);
    assert Utf8.RuneSize([x]) == 1;
    assert [x][..1] == [x] && [x][1..] == [] && Utf8.Runes([]) == [];
    assert Utf8.Runes([x]) == [[x]];
    assert Fields([], [x]) == [[x]];
    assert Fields([[x]], []) == Fields([], [] + [x]);
  }
}
