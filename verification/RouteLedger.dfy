/** The managed-route ledger of one router surface as values: what one send
    computes from (ledger, output, desired routes, router table), and what every
    order of sends and removals keeps. internal/application/managed_routes.go. */
module RouteLedger {
  import opened Text
  import opened Net
  import opened RouteLabels

  datatype Owned = Owned(description: Str, created: bool)

  // Who claims a prefix, and with which provenance labels.
  type Claims = map<(Str, Prefix), set<Str>>

  type Desired = map<Prefix, set<Str>>

  // What the router shows: a description for each static route.
  type Table = map<Prefix, Str>

  datatype Book = Book(routes: map<Prefix, Owned>, claims: Claims)

  datatype Change = Change(upsert: Table, remove: set<Prefix>)

  ghost function Claimed(claims: Claims): set<Prefix> {
    set k | k in claims :: k.1
  }

  ghost function LabelsOn(claims: Claims, p: Prefix): set<Str> {
    set k, l | k in claims && k.1 == p && l in claims[k] :: l
  }

  ghost function OwnKeys(o: Str, desired: Desired): set<(Str, Prefix)> {
    set p | p in desired :: (o, p)
  }

  /** This output's claims are replaced; every other output keeps its own. */
  ghost function NextClaims(claims: Claims, o: Str, desired: Desired): Claims {
    map k | k in claims.Keys + OwnKeys(o, desired) && (k.0 != o || k.1 in desired) ::
      if k.0 == o then desired[k.1] else claims[k]
  }

  predicate Made(b: Book, p: Prefix) {
    p in b.routes && b.routes[p].created
  }

  /** The description a route gets. A claim without provenance keeps the last
      description Routevane wrote. */
  ghost function NextDescription(b: Book, claims: Claims, p: Prefix): Str {
    var d := Describe(LabelsOn(claims, p));
    if d == [] && Made(b, p) && b.routes[p].description != [] then b.routes[p].description else d
  }

  predicate NextMade(b: Book, t: Table, p: Prefix) {
    p !in t || Made(b, p)
  }

  ghost function NextBook(b: Book, o: Str, desired: Desired, t: Table): Book {
    var claims := NextClaims(b.claims, o, desired);
    Book(map p | p in Claimed(claims) ::
           Owned(if NextMade(b, t, p) then NextDescription(b, claims, p) else [], NextMade(b, t, p)),
         claims)
  }

  /** The upserts and removals of `reconcileManagedRoutes`. */
  ghost function Mutation(b: Book, o: Str, desired: Desired, t: Table): Change {
    var claims := NextClaims(b.claims, o, desired);
    Change(
      map p | p in Claimed(claims) && (p !in t || (Made(b, p) && t[p] != NextDescription(b, claims, p))) ::
        NextDescription(b, claims, p),
      set p | p in b.routes && Made(b, p) && p !in Claimed(claims) && p in t)
  }

  function Apply(t: Table, c: Change): Table {
    (t + c.upsert) - c.remove
  }

  ghost function NextTable(b: Book, o: Str, desired: Desired, t: Table): Table {
    Apply(t, Mutation(b, o, desired, t))
  }

  /** What the router holds that Routevane did not create. */
  function Foreign(b: Book, t: Table): Table {
    map p | p in t && !Made(b, p) :: t[p]
  }

  ghost predicate ValidBook(b: Book) {
    && b.routes.Keys == Claimed(b.claims)
    && LabelsValid(b.claims)
    && forall p :: p in b.routes ==>
      && ValidDescription(b.routes[p].description)
      && (!b.routes[p].created ==> b.routes[p].description == [])
      && (b.routes[p].created && Describe(LabelsOn(b.claims, p)) != [] ==>
        b.routes[p].description == Describe(LabelsOn(b.claims, p)))
  }

  /** Desired labels pass `canonicalDesiredSpecs`. */
  ghost predicate ValidDesired(desired: Desired) {
    forall p, l :: p in desired && l in desired[p] ==> ValidLabel(l)
  }

  /** Every prefix's labels fit into one Go slice. */
  ghost predicate Countable(claims: Claims) {
    forall p :: |LabelsOn(claims, p)| <= MAX_INT
  }

  // -------------------------------------------------------------- one send

  lemma NextClaimsOf(claims: Claims, o: Str, desired: Desired)
    ensures var next := NextClaims(claims, o, desired);
      && (forall q, p :: q != o ==> ((q, p) in next <==> (q, p) in claims))
      && (forall q, p :: q != o && (q, p) in claims ==> next[(q, p)] == claims[(q, p)])
      && (forall p :: (o, p) in next <==> p in desired)
      && (forall p :: p in desired ==> next[(o, p)] == desired[p])
  {
    forall p | p in desired ensures (o, p) in OwnKeys(o, desired) {
    }
  }

  lemma TableAfter(b: Book, o: Str, desired: Desired, t: Table, p: Prefix)
    ensures var t', claims := NextTable(b, o, desired, t), NextClaims(b.claims, o, desired);
      && (p in t' <==> p in Claimed(claims) || (p in t && !Made(b, p)))
      && (p in t' ==>
        t'[p] == if p in Claimed(claims) && NextMade(b, t, p) then NextDescription(b, claims, p) else t[p])
  {
    hide Describe, NextDescription, NextClaims, Claimed;
  }

  /** The normal form. Foreign routes keep their presence and description, the
      table is exactly foreign routes and claimed ones, a claimed route counts as
      created exactly when it is not foreign, and then shows its description. */
  lemma SendNormalForm(b: Book, o: Str, desired: Desired, t: Table)
    requires ValidBook(b)
    ensures var b', t', claims :=
      NextBook(b, o, desired, t), NextTable(b, o, desired, t), NextClaims(b.claims, o, desired);
      && b'.claims == claims && b'.routes.Keys == Claimed(claims)
      && Foreign(b', t') == Foreign(b, t)
      && t'.Keys == Foreign(b, t).Keys + Claimed(claims)
      && (forall p :: p in Claimed(claims) ==> b'.routes[p].created == (p !in Foreign(b, t)))
      && (forall p :: p in Claimed(claims) && p !in Foreign(b, t) ==>
        t'[p] == b'.routes[p].description == NextDescription(b, claims, p))
  {
    hide Describe, NextDescription, NextClaims, ValidBook, NextTable, Claimed;
    forall p {
      TableAfter(b, o, desired, t, p);
    }
  }

  /** The labels that other outputs have on a prefix. */
  ghost function OtherLabels(claims: Claims, o: Str, p: Prefix): set<Str> {
    set k, l | k in claims && k.0 != o && k.1 == p && l in claims[k] :: l
  }

  /** Whether another output claims a prefix. */
  ghost predicate ClaimedElsewhere(claims: Claims, o: Str, p: Prefix) {
    exists k :: k in claims && k.0 != o && k.1 == p
  }

  /** What the router shows after a send, prefix by prefix: a foreign route as it was;
      a claimed route that was missing or is Routevane's with the labels of all its
      claimants, or with what it showed last when there are none; and nothing where
      Routevane's route is claimed by nobody any more. */
  lemma WhatTheRouterShows(b: Book, o: Str, desired: Desired, t: Table, p: Prefix)
    requires ValidBook(b)
    ensures var t' := NextTable(b, o, desired, t);
      var labels := (if p in desired then desired[p] else {}) + OtherLabels(b.claims, o, p);
      var last := if p in b.routes && b.routes[p].created then b.routes[p].description else [];
      if p in t && !(p in b.routes && b.routes[p].created) then p in t' && t'[p] == t[p]
      else if p in desired || ClaimedElsewhere(b.claims, o, p) then
        p in t' && t'[p] == if Describe(labels) != [] then Describe(labels) else last
      else p !in t'
  {
    hide Describe, NextClaims, ValidBook;
    NextClaimsOf(b.claims, o, desired);
    TableAfter(b, o, desired, t, p);
    var next := NextClaims(b.claims, o, desired);
    ClaimedAfter(b.claims, o, desired, p);
    assert LabelsOn(next, p) == (if p in desired then desired[p] else {}) + OtherLabels(b.claims, o, p) by {
      forall l | l in LabelsOn(next, p)
        ensures (p in desired && l in desired[p]) || l in OtherLabels(b.claims, o, p)
      {
        var k :| k in next && k.1 == p && l in next[k];
        assert k == (k.0, k.1);
      }
      forall l | p in desired && l in desired[p] ensures l in LabelsOn(next, p) {
        assert (o, p) in next;
      }
      forall l | l in OtherLabels(b.claims, o, p) ensures l in LabelsOn(next, p) {
        var k :| k in b.claims && k.0 != o && k.1 == p && l in b.claims[k];
        assert k == (k.0, k.1);
      }
    }
  }

  lemma ClaimedAfter(claims: Claims, o: Str, desired: Desired, p: Prefix)
    ensures p in Claimed(NextClaims(claims, o, desired)) <==> p in desired || ClaimedElsewhere(claims, o, p)
  {
    hide NextClaims;
    NextClaimsOf(claims, o, desired);
    var next := NextClaims(claims, o, desired);
    if p in Claimed(next) {
      var k :| k in next && k.1 == p;
      assert k == (k.0, k.1);
    }
    if p in desired {
      assert (o, p) in next;
    }
    if ClaimedElsewhere(claims, o, p) {
      var k :| k in claims && k.0 != o && k.1 == p;
      assert k == (k.0, k.1);
      assert k in next;
    }
  }

  /** The result of a valid send is a valid ledger: the last check of
      `reconcileManagedRoutes` never refuses. */
  lemma SendKeepsValid(b: Book, o: Str, desired: Desired, t: Table)
    requires ValidBook(b) && ValidDesired(desired)
    requires Countable(NextClaims(b.claims, o, desired))
    ensures ValidBook(NextBook(b, o, desired, t))
  {
    hide NextClaims, Claimed, LabelsOn, ValidLabel, ValidDescription, LabelsValid, Describe;
    var claims := NextClaims(b.claims, o, desired);
    var b' := NextBook(b, o, desired, t);
    LabelsAfter(b.claims, o, desired);
    DescribeIsValid({});
    DescribeIsEmpty({});
    forall p | p in b'.routes ensures ValidDescription(b'.routes[p].description) {
      DescribeIsValid(LabelsOn(claims, p));
    }
  }

  /** `verifyManagedRouteMutation` accepts the table. */
  predicate Verified(b: Book, c: Change, t: Table) {
    && (forall p :: p in b.routes ==> p in t && (b.routes[p].created ==> t[p] == b.routes[p].description))
    && (forall p :: p in c.remove ==> p !in t)
  }

  /** Applying the mutation always verifies. */
  lemma AppliedVerifies(b: Book, o: Str, desired: Desired, t: Table)
    requires ValidBook(b)
    ensures Verified(NextBook(b, o, desired, t), Mutation(b, o, desired, t), NextTable(b, o, desired, t))
  {
    SendNormalForm(b, o, desired, t);
  }

  /** A router and a ledger between which nothing is left to do. */
  ghost predicate AtRest(b: Book, t: Table) {
    && b.routes.Keys == Claimed(b.claims) && b.routes.Keys <= t.Keys
    && forall p :: p in b.routes ==>
      if Made(b, p) then t[p] == b.routes[p].description == NextDescription(b, b.claims, p)
      else b.routes[p].description == []
  }

  lemma SendComesToRest(b: Book, o: Str, desired: Desired, t: Table)
    requires ValidBook(b)
    ensures AtRest(NextBook(b, o, desired, t), NextTable(b, o, desired, t))
  {
    hide ValidLabel, LabelsOn, Describe, NextClaims, Claimed, ValidDescription, ValidBook, NextTable;
    SendNormalForm(b, o, desired, t);
  }

  lemma RestIsFixed(b: Book, o: Str, desired: Desired, t: Table)
    requires AtRest(b, t) && NextClaims(b.claims, o, desired) == b.claims
    ensures Mutation(b, o, desired, t) == Change(map[], {}) && NextBook(b, o, desired, t) == b &&
      NextTable(b, o, desired, t) == t
  {
    hide Describe, NextClaims, Claimed, NextDescription;
    assert Mutation(b, o, desired, t).upsert == map[];
    assert NextBook(b, o, desired, t).routes == b.routes;
  }

  /** Reconciling again changes nothing, on the router or in the ledger. */
  lemma Convergent(b: Book, o: Str, desired: Desired, t: Table)
    requires ValidBook(b)
    ensures var b', t' := NextBook(b, o, desired, t), NextTable(b, o, desired, t);
      Mutation(b', o, desired, t') == Change(map[], {}) && NextBook(b', o, desired, t') == b' &&
      NextTable(b', o, desired, t') == t'
  {
    hide NextClaims, AtRest, NextTable, Mutation, ValidBook, Claimed;
    SendComesToRest(b, o, desired, t);
    ClaimsReplacedOnce(b.claims, o, desired);
    RestIsFixed(NextBook(b, o, desired, t), o, desired, NextTable(b, o, desired, t));
  }

  lemma ClaimsReplacedOnce(claims: Claims, o: Str, desired: Desired)
    ensures NextClaims(NextClaims(claims, o, desired), o, desired) == NextClaims(claims, o, desired)
  {
    var once := NextClaims(claims, o, desired);
    NextClaimsOf(claims, o, desired);
    NextClaimsOf(once, o, desired);
    forall k: (Str, Prefix) ensures k in once <==> k in NextClaims(once, o, desired)
              ensures k in once ==> once[k] == NextClaims(once, o, desired)[k] {
      assert k == (k.0, k.1);
    }
  }

  // -------------------------------------------------------------- confluence

  /** What both orders of two sends have in common, whatever the labels: the
      claims, the created flags and the routes on the router. */
  lemma ClaimsCommute(claims: Claims, a: Str, da: Desired, b: Str, db: Desired)
    requires a != b
    ensures NextClaims(NextClaims(claims, a, da), b, db) == NextClaims(NextClaims(claims, b, db), a, da)
  {
    var ca, cb := NextClaims(claims, a, da), NextClaims(claims, b, db);
    var x, y := NextClaims(ca, b, db), NextClaims(cb, a, da);
    NextClaimsOf(claims, a, da);
    NextClaimsOf(claims, b, db);
    NextClaimsOf(ca, b, db);
    NextClaimsOf(cb, a, da);
    forall k: (Str, Prefix) ensures k in x <==> k in y ensures k in x ==> x[k] == y[k] {
      assert k == (k.0, k.1);
    }
  }

  datatype World = World(book: Book, table: Table)

  ghost function Send(w: World, o: Str, desired: Desired): World {
    World(NextBook(w.book, o, desired, w.table), NextTable(w.book, o, desired, w.table))
  }

  /** The description a later send would fall back on. */
  function Remembered(b: Book, p: Prefix): Str {
    if Made(b, p) then b.routes[p].description else []
  }

  /** The claims both orders end in. */
  ghost function BothClaims(w: World, a: Str, da: Desired, b: Str, db: Desired): Claims {
    NextClaims(NextClaims(w.book.claims, a, da), b, db)
  }

  /** The same for the ledger after one more send, from what is known before it. */
  ghost function Recalled(b: Book, o: Str, desired: Desired, p: Prefix): Str {
    var claims := NextClaims(b.claims, o, desired);
    if p !in Claimed(claims) then []
    else if Describe(LabelsOn(claims, p)) != [] then Describe(LabelsOn(claims, p))
    else Remembered(b, p)
  }

  lemma RecalledAfter(w: World, o: Str, desired: Desired, p: Prefix)
    requires ValidBook(w.book) && p !in Foreign(w.book, w.table)
    ensures Remembered(Send(w, o, desired).book, p) == Recalled(w.book, o, desired, p)
  {
    hide Describe, NextClaims, Claimed, LabelsOn, ValidDescription, LabelsValid;
  }

  /** The only place where two orders can differ: a prefix that ends up claimed
      without any provenance, on a route Routevane owns, takes the description
      that the ledger remembers after whichever send came first. */
  ghost predicate SameFallback(w: World, a: Str, da: Desired, b: Str, db: Desired) {
    forall p :: p in Claimed(BothClaims(w, a, da, b, db)) && p !in Foreign(w.book, w.table) &&
                Describe(LabelsOn(BothClaims(w, a, da, b, db), p)) == [] ==>
      Recalled(w.book, a, da, p) == Recalled(w.book, b, db, p)
  }

  /** Where a second send ends, in terms of what the first one left. */
  lemma SecondSend(w: World, a: Str, da: Desired, b: Str, db: Desired)
    requires ValidBook(w.book) && ValidBook(Send(w, a, da).book)
    ensures var end, claims, f := Send(Send(w, a, da), b, db), BothClaims(w, a, da, b, db), Foreign(w.book, w.table);
      && end.book.claims == claims && end.book.routes.Keys == Claimed(claims)
      && end.table.Keys == f.Keys + Claimed(claims)
      && (forall p :: p in f ==> end.table[p] == f[p])
      && (forall p :: p in Claimed(claims) && p in f ==> end.book.routes[p] == Owned([], false))
      && (forall p :: p in Claimed(claims) && p !in f ==>
        var d := Describe(LabelsOn(claims, p));
        end.table[p] == end.book.routes[p].description &&
        end.book.routes[p] == Owned(if d == [] then Remembered(Send(w, a, da).book, p) else d, true))
  {
    var mid := Send(w, a, da);
    SendNormalForm(w.book, a, da, w.table);
    SendNormalForm(mid.book, b, db, mid.table);
    var f, end := Foreign(w.book, w.table), Send(mid, b, db);
    forall p | p in f ensures end.table[p] == f[p] {
      assert p in Foreign(end.book, end.table);
    }
  }

  /** Sends of two outputs commute exactly when, for each route that ends up without
      provenance, either send alone would leave the same description to fall back on. */
  lemma SendsCommuteIff(w: World, a: Str, da: Desired, b: Str, db: Desired)
    requires a != b && ValidBook(w.book)
    requires ValidBook(Send(w, a, da).book) && ValidBook(Send(w, b, db).book)
    ensures Send(Send(w, a, da), b, db) == Send(Send(w, b, db), a, da) <==> SameFallback(w, a, da, b, db)
  {
    hide ValidBook, LabelsOn, Describe, NextClaims, NextTable, NextBook, Foreign, Send, Remembered, Recalled, Claimed,
      BothClaims;
    forall p | p !in Foreign(w.book, w.table)
      ensures Remembered(Send(w, a, da).book, p) == Recalled(w.book, a, da, p)
      ensures Remembered(Send(w, b, db).book, p) == Recalled(w.book, b, db, p)
    {
      RecalledAfter(w, a, da, p);
      RecalledAfter(w, b, db, p);
    }
    BothClaimsCommute(w, a, da, b, db);
    SecondSend(w, a, da, b, db);
    SecondSend(w, b, db, a, da);
    var x, y := Send(Send(w, a, da), b, db), Send(Send(w, b, db), a, da);
    var claims, f := BothClaims(w, a, da, b, db), Foreign(w.book, w.table);
    assert SameFallback(w, a, da, b, db) <==>
      forall p :: p in Claimed(claims) && p !in f ==> x.book.routes[p] == y.book.routes[p];
    if SameFallback(w, a, da, b, db) {
      assert x.book.routes == y.book.routes;
      assert x.table == y.table;
    }
  }

  lemma BothClaimsCommute(w: World, a: Str, da: Desired, b: Str, db: Desired)
    requires a != b
    ensures BothClaims(w, a, da, b, db) == BothClaims(w, b, db, a, da)
  {
    hide NextClaims;
    ClaimsCommute(w.book.claims, a, da, b, db);
  }

  ghost predicate Labelled(claims: Claims) {
    forall k :: k in claims ==> claims[k] != {}
  }

  ghost predicate LabelsValid(claims: Claims) {
    forall k, l :: k in claims && l in claims[k] ==> ValidLabel(l)
  }

  lemma BookLabelsValid(b: Book)
    requires ValidBook(b)
    ensures LabelsValid(b.claims)
  {
  }

  lemma LabelsAfter(claims: Claims, o: Str, desired: Desired)
    requires LabelsValid(claims) && ValidDesired(desired)
    ensures LabelsValid(NextClaims(claims, o, desired))
    ensures Labelled(claims) && (forall p :: p in desired ==> desired[p] != {}) ==>
      Labelled(NextClaims(claims, o, desired))
  {
    var next := NextClaims(claims, o, desired);
    NextClaimsOf(claims, o, desired);
    forall k | k in next
      ensures forall l :: l in next[k] ==> ValidLabel(l)
      ensures Labelled(claims) && (forall p :: p in desired ==> desired[p] != {}) ==> next[k] != {}
    {
      assert k == (k.0, k.1);
    }
  }

  lemma LabelledDescription(claims: Claims, p: Prefix)
    requires LabelsValid(claims) && Labelled(claims) && p in Claimed(claims)
    ensures Describe(LabelsOn(claims, p)) != []
  {
    var k :| k in claims && k.1 == p;
    var l :| l in claims[k];
    assert l in LabelsOn(claims, p);
    DescribeIsEmpty(LabelsOn(claims, p));
  }

  /** With provenance on every claim nothing falls back. */
  lemma LabelledFallback(w: World, a: Str, da: Desired, b: Str, db: Desired)
    requires LabelsValid(w.book.claims) && ValidDesired(da) && ValidDesired(db)
    requires Labelled(w.book.claims) && (forall p :: p in da ==> da[p] != {}) && (forall p :: p in db ==> db[p] != {})
    ensures SameFallback(w, a, da, b, db)
  {
    hide Describe, NextClaims, NextTable, NextBook, LabelsValid, Labelled, ValidDesired, Foreign;
    var claims := BothClaims(w, a, da, b, db);
    LabelsAfter(w.book.claims, a, da);
    LabelsAfter(NextClaims(w.book.claims, a, da), b, db);
    forall p | p in Claimed(claims) ensures Describe(LabelsOn(claims, p)) != [] {
      LabelledDescription(claims, p);
    }
  }

  /** With provenance on every claim the order of two sends does not matter:
      same claims, same created flags, same descriptions, same router table. */
  lemma LabelledSendsCommute(w: World, a: Str, da: Desired, b: Str, db: Desired)
    requires a != b && ValidBook(w.book) && ValidDesired(da) && ValidDesired(db)
    requires Labelled(w.book.claims) && (forall p :: p in da ==> da[p] != {}) && (forall p :: p in db ==> db[p] != {})
    requires Countable(NextClaims(w.book.claims, a, da)) && Countable(NextClaims(w.book.claims, b, db))
    ensures Send(Send(w, a, da), b, db) == Send(Send(w, b, db), a, da)
  {
    hide Describe, NextClaims, NextTable, NextBook, LabelsValid, ValidDescription, SameFallback;
    SendKeepsValid(w.book, a, da, w.table);
    SendKeepsValid(w.book, b, db, w.table);
    LabelledFallback(w, a, da, b, db);
    SendsCommuteIff(w, a, da, b, db);
  }

  // -------------------------------------------------------------- runs

  datatype Step = Deliver(output: Str, desired: Desired) | Remove(output: Str)

  ghost predicate Owns(b: Book, o: Str) {
    exists p :: (o, p) in b.claims
  }

  /** A removal of an output the ledger does not name reaches no device. */
  ghost function Take(w: World, s: Step): World {
    match s
    case Deliver(o, desired) => Send(w, o, desired)
    case Remove(o) => if Owns(w.book, o) then Send(w, o, map[]) else w
  }

  ghost predicate Admissible(w: World, s: Step) {
    var desired := if s.Deliver? then s.desired else map[];
    ValidDesired(desired) && Countable(NextClaims(w.book.claims, s.output, desired))
  }

  ghost predicate AdmissibleRun(w: World, steps: seq<Step>)
    decreases |steps|
  {
    steps == [] || (Admissible(w, steps[0]) && AdmissibleRun(Take(w, steps[0]), steps[1..]))
  }

  ghost function Run(w: World, steps: seq<Step>): World
    decreases |steps|
  {
    if steps == [] then w else Run(Take(w, steps[0]), steps[1..])
  }

  lemma StepConserves(w: World, s: Step)
    requires ValidBook(w.book) && Admissible(w, s)
    ensures ValidBook(Take(w, s).book)
    ensures Foreign(Take(w, s).book, Take(w, s).table) == Foreign(w.book, w.table)
    ensures forall q :: Owns(Take(w, s).book, q) ==> q == s.output || Owns(w.book, q)
    ensures s.Remove? ==> !Owns(Take(w, s).book, s.output)
    ensures s.Deliver? || Owns(w.book, s.output) ==>
      Take(w, s).table.Keys == Foreign(w.book, w.table).Keys + Claimed(Take(w, s).book.claims)
  {
    var desired := if s.Deliver? then s.desired else map[];
    SendKeepsValid(w.book, s.output, desired, w.table);
    SendNormalForm(w.book, s.output, desired, w.table);
    NextClaimsOf(w.book.claims, s.output, desired);
  }

  /** Over any run the foreign table is conserved, and the ledger stays valid. */
  lemma {:induction false} RunConserves(w: World, steps: seq<Step>)
    requires ValidBook(w.book) && AdmissibleRun(w, steps)
    ensures ValidBook(Run(w, steps).book)
    ensures Foreign(Run(w, steps).book, Run(w, steps).table) == Foreign(w.book, w.table)
    decreases |steps|
  {
    if steps != [] {
      StepConserves(w, steps[0]);
      RunConserves(Take(w, steps[0]), steps[1..]);
    }
  }

  function Removals(outputs: seq<Str>): seq<Step> {
    seq(|outputs|, i requires 0 <= i < |outputs| => Remove(outputs[i]))
  }

  /** Removing every output that owns something gives the router its foreign
      table back: nothing is left behind and nothing else was touched. */
  lemma {:induction false} RemovingAllRestores(w: World, outputs: seq<Str>)
    requires ValidBook(w.book) && AdmissibleRun(w, Removals(outputs))
    requires forall q :: Owns(w.book, q) ==> q in outputs
    ensures var end := Run(w, Removals(outputs));
      end.table == Foreign(w.book, w.table) && end.book == Book(map[], map[])
    decreases |outputs|
  {
    if outputs == [] {
      forall k | k in w.book.claims ensures false {
        assert k == (k.0, k.1);
        assert Owns(w.book, k.0);
      }
      assert w.book.claims == map[];
      assert Claimed(w.book.claims) == {};
      assert w.book.routes == map[];
      assert Foreign(w.book, w.table) == w.table;
    } else {
      var s := Remove(outputs[0]);
      assert Removals(outputs)[0] == s && Removals(outputs)[1..] == Removals(outputs[1..]);
      StepConserves(w, s);
      forall q | Owns(Take(w, s).book, q) ensures q in outputs[1..] {
        assert q in outputs && q != outputs[0];
      }
      RemovingAllRestores(Take(w, s), outputs[1..]);
    }
  }
}
