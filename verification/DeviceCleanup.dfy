/** Cleaning devices before an output or a profile is retired:
    internal/application/device_cleanup.go. */
module DeviceCleanup {
  import opened Text
  import opened Net
  import opened RouteLedger
  import opened ManagedRoutes
  import opened Reconciliation
  import opened DeviceTrace
  import opened DeviceLifecycle
  import RouteAuthority
  import RouteLabels
  import opened Wrappers

  // -------------------------------------------------------------- the preview

  datatype Counts = Counts(claimed: nat, removable: nat, shared: nat, preexisting: nat)

  ghost function ClaimedBy(claims: Claims, o: Str): set<Prefix> {
    set k | k in claims && k.0 == o :: k.1
  }

  ghost function ClaimedByOthers(claims: Claims, o: Str): set<Prefix> {
    set k | k in claims && k.0 != o :: k.1
  }

  /** What a removal may delete: created by Routevane, claimed by this output alone. */
  ghost function Removable(b: Book, o: Str): set<Prefix> {
    set p | p in ClaimedBy(b.claims, o) && Made(b, p) && p !in ClaimedByOthers(b.claims, o)
  }

  ghost function Shared(b: Book, o: Str): set<Prefix> {
    set p | p in ClaimedBy(b.claims, o) && Made(b, p) && p in ClaimedByOthers(b.claims, o)
  }

  ghost function Preexisting(b: Book, o: Str): set<Prefix> {
    set p | p in ClaimedBy(b.claims, o) && !Made(b, p)
  }

  /** The preview is truthful. A removal deletes the removable routes that the
      router still shows, and no others. */
  lemma RemovalDeletesRemovable(b: Book, o: Str, t: Table)
    requires ValidBook(b)
    ensures Mutation(b, o, map[], t).remove == Removable(b, o) * t.Keys
  {
    hide RouteLabels.Describe, NextDescription, RouteLabels.ValidDescription, LabelsValid, NextClaims;
    NextClaimsOf(b.claims, o, map[]);
    var next := NextClaims(b.claims, o, map[]);
    forall p ensures p in Claimed(next) <==> p in ClaimedByOthers(b.claims, o) {
      if p in Claimed(next) {
        var k :| k in next && k.1 == p;
        assert k == (k.0, k.1);
      }
      if p in ClaimedByOthers(b.claims, o) {
        var k :| k in b.claims && k.0 != o && k.1 == p;
        assert k == (k.0, k.1);
        assert k in next;
      }
    }
    forall p | p in b.routes && p !in ClaimedByOthers(b.claims, o) ensures p in ClaimedBy(b.claims, o) {
      assert p in Claimed(b.claims);
      var k :| k in b.claims && k.1 == p;
    }
  }

  ghost function OwnPrefixes(claims: seq<Claim>, o: Str): set<Prefix> {
    set c | c in claims && c.output == o :: c.prefix
  }

  ghost function OtherPrefixes(claims: seq<Claim>, o: Str): set<Prefix> {
    set c | c in claims && c.output != o :: c.prefix
  }

  function MadeIn(routes: map<Prefix, Owned>): set<Prefix> {
    set p | p in routes && routes[p].created
  }

  /** The counts of a set of prefixes, by what a removal does to them. */
  ghost predicate Sorted(own: set<Prefix>, made: set<Prefix>, others: set<Prefix>, c: Counts) {
    && c.claimed == |own| && c.preexisting == |Only(own, made)|
    && c.removable == |Only(Both(own, made), others)| && c.shared == |Both(Both(own, made), others)|
  }

  function Counted(c: Counts, made: bool, shared: bool): Counts {
    if !made then c.(claimed := c.claimed + 1, preexisting := c.preexisting + 1)
    else if shared then c.(claimed := c.claimed + 1, shared := c.shared + 1)
    else c.(claimed := c.claimed + 1, removable := c.removable + 1)
  }

  ghost function Both(a: set<Prefix>, b: set<Prefix>): set<Prefix> {
    a * b
  }

  ghost function Only(a: set<Prefix>, b: set<Prefix>): set<Prefix> {
    a - b
  }

  lemma OneMoreIn(a: set<Prefix>, p: Prefix, b: set<Prefix>)
    requires p !in a
    ensures p in b ==> Both(a + {p}, b) == Both(a, b) + {p} && Only(a + {p}, b) == Only(a, b)
    ensures p !in b ==> Both(a + {p}, b) == Both(a, b) && Only(a + {p}, b) == Only(a, b) + {p}
    ensures p !in Both(a, b) && p !in Only(a, b)
  {
  }

  lemma OneMoreCount(a: set<Prefix>, p: Prefix)
    requires p !in a
    ensures |a + {p}| == |a| + 1
  {
  }

  lemma OneMore(own: set<Prefix>, p: Prefix, made: set<Prefix>, others: set<Prefix>, c: Counts)
    requires p !in own && Sorted(own, made, others, c)
    ensures Sorted(own + {p}, made, others, Counted(c, p in made, p in others))
  {
    hide Both, Only;
    var mine := Both(own, made);
    OneMoreIn(own, p, made);
    OneMoreIn(mine, p, others);
    OneMoreCount(own, p);
    OneMoreCount(Only(own, made), p);
    OneMoreCount(Both(mine, others), p);
    OneMoreCount(Only(mine, others), p);
  }

  lemma OwnStep(claims: seq<Claim>, i: nat, o: Str)
    requires i < |claims|
    ensures OwnPrefixes(claims[..i + 1], o) ==
      OwnPrefixes(claims[..i], o) + (if claims[i].output == o then {claims[i].prefix} else {})
    ensures DistinctClaims(claims) && claims[i].output == o ==> claims[i].prefix !in OwnPrefixes(claims[..i], o)
  {
    assert claims[..i + 1] == claims[..i] + [claims[i]];
    assert forall c :: c in claims[..i + 1] <==> c in claims[..i] || c == claims[i];
  }

  method GatherOthers(claims: seq<Claim>, o: Str) returns (others: set<Prefix>)
    ensures others == OtherPrefixes(claims, o)
  {
    others := {};
    for i := 0 to |claims|
      invariant others == OtherPrefixes(claims[..i], o)
    {
      assert claims[..i + 1] == claims[..i] + [claims[i]];
      assert forall c :: c in claims[..i + 1] <==> c in claims[..i] || c == claims[i];
      if claims[i].output != o {
        others := others + {claims[i].prefix};
      }
    }
    assert claims[..|claims|] == claims;
  }

  method CountClaim(before: Counts, p: Prefix, routes: map<Prefix, Owned>, others: set<Prefix>) returns (c: Counts)
    ensures c == Counted(before, p in routes && routes[p].created, p in others)
  {
    c := before.(claimed := before.claimed + 1);
    if !(p in routes && routes[p].created) {
      c := c.(preexisting := c.preexisting + 1);
    } else if p in others {
      c := c.(shared := c.shared + 1);
    } else {
      c := c.(removable := c.removable + 1);
    }
  }

  method CountClaims(claims: seq<Claim>, o: Str, routes: map<Prefix, Owned>, others: set<Prefix>) returns (c: Counts)
    ensures c.claimed == c.removable + c.shared + c.preexisting
    ensures DistinctClaims(claims) ==>
      Sorted(OwnPrefixes(claims, o), MadeIn(routes), others, c)
  {
    hide Sorted, OwnPrefixes, DistinctClaims, MadeIn;
    ghost var made, distinct := MadeIn(routes), DistinctClaims(claims);
    c := Counts(0, 0, 0, 0);
    NoneSorted(o, made, others);
    assert claims[..0] == [];
    for i := 0 to |claims|
      invariant c.claimed == c.removable + c.shared + c.preexisting
      invariant distinct ==> Sorted(OwnPrefixes(claims[..i], o), made, others, c)
    {
      OwnStep(claims, i, o);
      ghost var own := OwnPrefixes(claims[..i], o);
      var p := claims[i].prefix;
      if claims[i].output != o {
        assert own + {} == own;
        continue;
      }
      MadeMember(routes, p);
      if distinct {
        OneMore(own, p, made, others, c);
      }
      c := CountClaim(c, p, routes, others);
    }
    assert claims[..|claims|] == claims;
  }

  lemma MadeMember(routes: map<Prefix, Owned>, p: Prefix)
    ensures p in MadeIn(routes) <==> p in routes && routes[p].created
  {
  }

  lemma NoneSorted(o: Str, made: set<Prefix>, others: set<Prefix>)
    ensures Sorted(OwnPrefixes([], o), made, others, Counts(0, 0, 0, 0))
  {
    assert OwnPrefixes([], o) == {};
    assert {} * made == {};
  }

  /** `routeCounts`. */
  method RouteCounts(l: Ledger, o: Str) returns (c: Counts)
    ensures c.claimed == c.removable + c.shared + c.preexisting
    ensures ValidLedger(l) ==>
      var b := View(l);
      c == Counts(|ClaimedBy(b.claims, o)|, |Removable(b, o)|, |Shared(b, o)|, |Preexisting(b, o)|)
  {
    hide ValidLedger, RouteView, ClaimView, Sorted, OwnPrefixes, OtherPrefixes, Removable, Shared, Preexisting,
      ClaimedBy;
    var routes := RouteMap(l.routes);
    var others := GatherOthers(l.claims, o);
    c := CountClaims(l.claims, o, routes, others);
    if ValidLedger(l) {
      PrefixesInView(l, o);
      SortedView(View(l), o, c);
    }
  }

  lemma PrefixesInView(l: Ledger, o: Str)
    requires ValidLedger(l)
    ensures DistinctClaims(l.claims)
    ensures OwnPrefixes(l.claims, o) == ClaimedBy(View(l).claims, o)
    ensures OtherPrefixes(l.claims, o) == ClaimedByOthers(View(l).claims, o)
  {
    hide RouteView, ClaimView, ValidRoutes, Agrees, ValidScope, WellFormedClaim;
    ClaimViewOf(l.claims);
    var claims := View(l).claims;
    forall k | k in claims ensures exists c :: c in l.claims && (c.output, c.prefix) == k {
    }
    forall p | p in ClaimedBy(claims, o) ensures p in OwnPrefixes(l.claims, o) {
      var k :| k in claims && k.0 == o && k.1 == p;
      var c :| c in l.claims && (c.output, c.prefix) == k;
    }
    forall p | p in ClaimedByOthers(claims, o) ensures p in OtherPrefixes(l.claims, o) {
      var k :| k in claims && k.0 != o && k.1 == p;
      var c :| c in l.claims && (c.output, c.prefix) == k;
    }
    forall c | c in l.claims ensures (c.output, c.prefix) in claims {
    }
  }

  lemma SortedView(b: Book, o: Str, c: Counts)
    requires Sorted(ClaimedBy(b.claims, o), MadeIn(b.routes), ClaimedByOthers(b.claims, o), c)
    ensures c == Counts(|ClaimedBy(b.claims, o)|, |Removable(b, o)|, |Shared(b, o)|, |Preexisting(b, o)|)
  {
    hide ClaimedBy, ClaimedByOthers;
    var own, others := ClaimedBy(b.claims, o), ClaimedByOthers(b.claims, o);
    var made := MadeIn(b.routes);
    assert Removable(b, o) == (own * made) - others;
    assert Shared(b, o) == (own * made) * others;
    assert Preexisting(b, o) == own - made;
  }

  /** On a router that shows every ledger route, the removal deletes as many
      routes as the preview counts removable. */
  lemma PreviewIsTruthful(l: Ledger, o: Str, t: Table)
    requires ValidLedger(l) && View(l).routes.Keys <= t.Keys
    ensures Mutation(View(l), o, map[], t).remove == Removable(View(l), o)
  {
    hide ValidLedger, View, Removable, Mutation;
    ValidLedgerIsValidBook(l);
    RemovalDeletesRemovable(View(l), o, t);
    RemovableInLedger(View(l), o);
    assert Removable(View(l), o) * t.Keys == Removable(View(l), o);
  }

  lemma RemovableInLedger(b: Book, o: Str)
    ensures Removable(b, o) <= b.routes.Keys
  {
  }

  // -------------------------------------------------------------- whom to ask

  datatype Card = Card(id: Str, stored: bool, createdAt: int)

  /** One place where an output may have delivered, with the saved connections
      that canonicalize to it. */
  datatype Surface = Surface(site: Site, deployer: Deployer, request: Request, supported: bool, needsCredential: bool,
    candidates: seq<Card>)

  datatype Output = Output(id: Str, device: Str)

  datatype Blocked = NotBlocked | RemovalUnsupported | ConnectionMissing | LoginMissing

  datatype Entry = Entry(surface: Surface, output: Str, chosen: Option<Card>, blocked: Blocked)

  function Rank(c: Card, needsCredential: bool, bound: Str): nat {
    (if needsCredential && !c.stored then 2 else 0) + (if c.id != bound then 1 else 0)
  }

  /** The order of `slices.MinFunc` in `match`. */
  predicate Better(a: Card, b: Card, needsCredential: bool, bound: Str) {
    var x, y := Rank(a, needsCredential, bound), Rank(b, needsCredential, bound);
    x < y || (x == y && (a.createdAt < b.createdAt || (a.createdAt == b.createdAt && Less(a.id, b.id))))
  }

  /** Why `a` is taken and not `c`: whoever can sign in comes first, then the format's
      bound connection, then the oldest. */
  predicate Preferred(a: Card, c: Card, needsCredential: bool, bound: Str) {
    && (needsCredential && c.stored ==> a.stored)
    && (c.id == bound && (needsCredential ==> c.stored) ==> a.id == bound)
    && ((needsCredential ==> a.stored == c.stored) && (a.id == bound <==> c.id == bound) ==>
          a.createdAt < c.createdAt || (a.createdAt == c.createdAt && !Less(c.id, a.id)))
  }

  lemma BestIsPreferred(a: Card, c: Card, needsCredential: bool, bound: Str)
    requires !Better(c, a, needsCredential, bound)
    ensures Preferred(a, c, needsCredential, bound)
  {
  }

  predicate CanSignIn(s: Surface) {
    s.supported && exists i :: 0 <= i < |s.candidates| && (!s.needsCredential || s.candidates[i].stored)
  }

  /** `match`: a surface is blocked only when no saved connection can sign in, and
      no candidate is better than the chosen one. A login is missing only where some
      connection matches. */
  method Match(s: Surface, o: Output) returns (e: Entry)
    ensures e.surface == s && e.output == o.id
    ensures e.blocked == NotBlocked <==> CanSignIn(s)
    ensures e.blocked.RemovalUnsupported? <==> !s.supported
    ensures e.blocked.ConnectionMissing? <==> s.supported && s.candidates == []
    ensures s.supported && s.candidates != [] ==>
      && e.chosen.Some? && e.chosen.value in s.candidates
      && forall c :: c in s.candidates ==>
        && !Better(c, e.chosen.value, s.needsCredential, o.device)
        && Preferred(e.chosen.value, c, s.needsCredential, o.device)
  {
    e := Entry(s, o.id, None, Blocked.RemovalUnsupported);
    if !s.supported {
      return;
    }
    if |s.candidates| == 0 {
      return e.(blocked := ConnectionMissing);
    }
    var chosen := s.candidates[0];
    LessIrreflexive(chosen.id);
    for i := 1 to |s.candidates|
      invariant chosen in s.candidates
      invariant forall k :: 0 <= k < i ==> !Better(s.candidates[k], chosen, s.needsCredential, o.device)
    {
      if Better(s.candidates[i], chosen, s.needsCredential, o.device) {
        forall k | 0 <= k < i ensures !Better(s.candidates[k], s.candidates[i], s.needsCredential, o.device) {
          BetterStep(s.candidates[k], s.candidates[i], chosen, s.needsCredential, o.device);
        }
        chosen := s.candidates[i];
        LessIrreflexive(chosen.id);
      }
    }
    forall c | c in s.candidates ensures Preferred(chosen, c, s.needsCredential, o.device) {
      BestIsPreferred(chosen, c, s.needsCredential, o.device);
    }
    if s.needsCredential && !chosen.stored {
      return e.(chosen := Some(chosen), blocked := LoginMissing);
    }
    return e.(chosen := Some(chosen), blocked := NotBlocked);
  }

  lemma BetterStep(a: Card, b: Card, c: Card, needsCredential: bool, bound: Str)
    requires Better(b, c, needsCredential, bound) && !Better(a, c, needsCredential, bound)
    ensures !Better(a, b, needsCredential, bound)
  {
    if Better(a, b, needsCredential, bound) && Less(a.id, b.id) && Less(b.id, c.id) {
      LessTransitive(a.id, b.id, c.id);
    }
  }

  // -------------------------------------------------------------- the entries

  predicate Empty(s: Surface, o: Str)
    reads s.site
  {
    NothingOwned(s.site.ledger, s.site.groups, s.deployer, o)
  }

  ghost function SurfaceSites(surfaces: seq<Surface>): set<Site> {
    set s | s in surfaces :: s.site
  }

  /** Who owns something where. */
  ghost function Holding(surfaces: seq<Surface>, outputs: seq<Output>): set<(Surface, Str)>
    reads SurfaceSites(surfaces)
  {
    set s, o | s in surfaces && o in outputs && s.site in SurfaceSites(surfaces) && !Empty(s, o.id) :: (s, o.id)
  }

  /** The surfaces on which output `o` owns something, in order. */
  ghost function Owing(surfaces: seq<Surface>, o: Str, holding: set<(Surface, Str)>): seq<(Surface, Str)> {
    if surfaces == [] then []
    else
      var place := (surfaces[|surfaces| - 1], o);
      Owing(surfaces[..|surfaces| - 1], o, holding) + if place in holding then [place] else []
  }

  /** For one output after the other. */
  ghost function AllOwing(surfaces: seq<Surface>, outputs: seq<Output>, holding: set<(Surface, Str)>)
    : seq<(Surface, Str)>
  {
    if outputs == [] then []
    else
      AllOwing(surfaces, outputs[..|outputs| - 1], holding) + Owing(surfaces, outputs[|outputs| - 1].id, holding)
  }

  function Places(entries: seq<Entry>): seq<(Surface, Str)> {
    seq(|entries|, i requires 0 <= i < |entries| => (entries[i].surface, entries[i].output))
  }

  lemma {:induction false} OwingOf(surfaces: seq<Surface>, o: Str, holding: set<(Surface, Str)>)
    ensures forall x :: x in Owing(surfaces, o, holding) <==> x.1 == o && x.0 in surfaces && x in holding
  {
    if surfaces != [] {
      var n := |surfaces| - 1;
      OwingOf(surfaces[..n], o, holding);
      assert surfaces == surfaces[..n] + [surfaces[n]];
    }
  }

  lemma {:induction false} AllOwingOf(surfaces: seq<Surface>, outputs: seq<Output>, holding: set<(Surface, Str)>)
    ensures forall x :: x in AllOwing(surfaces, outputs, holding) <==>
      x.0 in surfaces && x in holding && exists o :: o in outputs && o.id == x.1
  {
    hide Owing;
    if outputs != [] {
      var n := |outputs| - 1;
      AllOwingOf(surfaces, outputs[..n], holding);
      OwingOf(surfaces, outputs[n].id, holding);
      assert outputs == outputs[..n] + [outputs[n]];
    }
  }

  /** `entries`: output by output, every surface on which its ledger names something,
      each once and in order. The endpoints of an output come before its scopes, so
      they come first in `surfaces`. */
  method Entries(surfaces: seq<Surface>, outputs: seq<Output>) returns (entries: seq<Entry>)
    ensures Places(entries) == AllOwing(surfaces, outputs, old(Holding(surfaces, outputs)))
    ensures forall e :: e in entries ==> (e.blocked == NotBlocked <==> CanSignIn(e.surface)) && Chosen(e)
  {
    hide NothingOwned, CanSignIn, Owing, AllOwing, Places;
    entries := [];
    ghost var holding := Holding(surfaces, outputs);
    NothingOwing(surfaces, [], holding);
    assert outputs[..0] == [];
    for i := 0 to |outputs|
      invariant Places(entries) == AllOwing(surfaces, outputs[..i], holding)
      invariant forall e :: e in entries ==> (e.blocked == NotBlocked <==> CanSignIn(e.surface)) && Chosen(e)
    {
      AllOwingStep(surfaces, outputs, i, holding);
      var more := EntriesOf(surfaces, outputs[i], holding);
      JoinedPlaces(entries, more);
      entries := entries + more;
    }
    assert outputs[..|outputs|] == outputs;
  }

  /** What is not blocked has a saved connection. */
  predicate Chosen(e: Entry) {
    e.blocked == NotBlocked ==> e.chosen.Some?
  }

  /** The entries of one output. */
  method EntriesOf(surfaces: seq<Surface>, o: Output, ghost holding: set<(Surface, Str)>) returns (entries: seq<Entry>)
    requires forall s :: s in surfaces ==> ((s, o.id) in holding <==> !Empty(s, o.id))
    ensures Places(entries) == Owing(surfaces, o.id, holding)
    ensures forall e :: e in entries ==> (e.blocked == NotBlocked <==> CanSignIn(e.surface)) && Chosen(e)
  {
    hide NothingOwned, CanSignIn, Owing, Places;
    entries := [];
    NothingOwing(surfaces, o.id, holding);
    assert surfaces[..0] == [];
    for j := 0 to |surfaces|
      invariant Places(entries) == Owing(surfaces[..j], o.id, holding)
      invariant forall e :: e in entries ==> (e.blocked == NotBlocked <==> CanSignIn(e.surface)) && Chosen(e)
    {
      OwingStep(surfaces, j, o.id, holding);
      var none := FindNothingOwned(surfaces[j].site, surfaces[j].deployer, o.id);
      if none {
        continue;
      }
      var e := Match(surfaces[j], o);
      JoinedPlaces(entries, [e]);
      OnePlace(e);
      entries := entries + [e];
    }
    assert surfaces[..|surfaces|] == surfaces;
  }

  lemma JoinedPlaces(a: seq<Entry>, b: seq<Entry>)
    ensures Places(a + b) == Places(a) + Places(b)
  {
  }

  lemma OnePlace(e: Entry)
    ensures Places([e]) == [(e.surface, e.output)]
  {
  }

  lemma NothingOwing(surfaces: seq<Surface>, o: Str, holding: set<(Surface, Str)>)
    ensures Owing([], o, holding) == [] && AllOwing(surfaces, [], holding) == [] && Places([]) == []
  {
  }

  lemma OwingStep(surfaces: seq<Surface>, j: nat, o: Str, holding: set<(Surface, Str)>)
    requires j < |surfaces|
    ensures Owing(surfaces[..j + 1], o, holding) ==
      Owing(surfaces[..j], o, holding) + if (surfaces[j], o) in holding then [(surfaces[j], o)] else []
  {
    assert surfaces[..j + 1][..j] == surfaces[..j];
  }

  lemma AllOwingStep(surfaces: seq<Surface>, outputs: seq<Output>, i: nat, holding: set<(Surface, Str)>)
    requires i < |outputs|
    ensures AllOwing(surfaces, outputs[..i + 1], holding) ==
      AllOwing(surfaces, outputs[..i], holding) + Owing(surfaces, outputs[i].id, holding)
  {
    assert outputs[..i + 1][..i] == outputs[..i];
  }

  // -------------------------------------------------------------- the cleanup

  datatype Refusal = Blocking | Credential | Previewing(at: nat) | Removing(at: nat)

  ghost function Sites(entries: seq<Entry>): set<Site> {
    set e | e in entries :: e.surface.site
  }

  ghost predicate AllValid(sites: set<Site>)
    reads sites
  {
    forall s :: s in sites ==> s.Valid()
  }

  function AsRequest(e: Entry): Request {
    e.surface.request.(output := e.output)
  }

  /** Since `from`, this device was asked with nothing changed: it answered, runs a
      firmware that takes the format, and previewed the removal of FQDN groups. */
  ghost predicate Consulted(d: Deployer, story: seq<Trace>, from: nat) {
    exists i :: from <= i < |story| && Quiet(story[i]) && Compatible(story[i]) && (d.groups ==> PreviewDone(story[i]))
  }

  ghost predicate QuietSince(story: seq<Trace>, from: nat) {
    forall i :: from <= i < |story| ==> Quiet(story[i])
  }

  lemma LaterStory(d: Deployer, story: seq<Trace>, more: seq<Trace>, from: nat)
    requires story <= more
    ensures Consulted(d, story, from) ==> Consulted(d, more, from)
  {
    hide Quiet, Compatible, PreviewDone;
    if Consulted(d, story, from) {
      var i :| from <= i < |story| && Quiet(story[i]) && Compatible(story[i]) && (d.groups ==> PreviewDone(story[i]));
      assert more[i] == story[i];
    }
  }

  lemma OneQuietMore(story: seq<Trace>, t: Trace, from: nat)
    requires from <= |story| && QuietSince(story, from) && Quiet(t)
    ensures QuietSince(story + [t], from)
  {
    hide Quiet;
  }

  /** The removal that this entry asks for. */
  function RemovalOf(e: Entry): Job
    reads e.surface.site
  {
    Removal(e.surface.site.ledger, e.surface.site.groups, e.surface.deployer, AsRequest(e))
  }

  /** This whole attempt ended in failure. */
  ghost predicate Failed(t: Trace, j: Job) {
    Ended(t, j) && FailureAt(t, j).Some?
  }

  /** The device was asked last for the preview of this removal, and it failed. */
  ghost predicate Refuses(e: Entry)
    reads e.surface.site
  {
    Failed(e.surface.site.trace, RemovalOf(e)) && Quiet(e.surface.site.trace)
  }

  /** One device is asked, unless the output owns nothing there. */
  method PreviewOne(e: Entry) returns (ok: bool)
    requires e.surface.site.Valid()
    modifies e.surface.site`device, e.surface.site`trace, e.surface.site`past
    ensures e.surface.site.Valid()
    ensures var site := e.surface.site;
      && site.past == old(site.Story()) && Quiet(site.trace)
      && (ok ==> Empty(e.surface, e.output) || Consulted(e.surface.deployer, site.Story(), |site.past|))
      && (!ok ==> Refuses(e))
  {
    hide Quiet, Disciplined, NothingOwned, Compatible, PreviewDone, Ended, Told;
    var site := e.surface.site;
    site.Begin();
    var error, none, events := PrepareRemoval(site, e.surface.deployer, AsRequest(e));
    assert site.Story()[|site.past|] == site.trace;
    if error.Some? {
      FailureTold(Report(false, false, events, error), site.trace, RemovalOf(e));
    }
    ok := error.None?;
  }

  lemma FailureTold(r: Report, t: Trace, j: Job)
    requires Told(r, t, j)
    ensures r.error == FailureAt(t, j)
  {
  }

  /** Every device is asked before any is changed. */
  method PreviewAll(entries: seq<Entry>) returns (failed: Option<nat>)
    requires AllValid(Sites(entries))
    modifies Sites(entries)
    ensures AllValid(Sites(entries))
    ensures failed.Some? ==> failed.value < |entries| && Refuses(entries[failed.value])
    ensures failed.Some? ==>
      |old(entries[failed.value].surface.site.Story())| <= |entries[failed.value].surface.site.past|
    ensures forall s :: s in Sites(entries) ==>
      && s.ledger == old(s.ledger) && s.groups == old(s.groups) && s.history == old(s.history)
      && old(s.Story()) <= s.Story() && QuietSince(s.Story(), |old(s.Story())|)
    ensures failed.None? ==> forall e :: e in entries ==>
      Empty(e.surface, e.output) || Consulted(e.surface.deployer, e.surface.site.Story(), |old(e.surface.site.Story())|)
  {
    hide Site.Valid, Quiet, Disciplined, NothingOwned, Consulted, QuietSince, Failed;
    NothingSince(Sites(entries));
    for k := 0 to |entries|
      invariant AllValid(Sites(entries))
      invariant forall s :: s in Sites(entries) ==>
        && s.ledger == old(s.ledger) && s.groups == old(s.groups) && s.history == old(s.history)
        && old(s.Story()) <= s.Story() && QuietSince(s.Story(), |old(s.Story())|)
      invariant forall j :: 0 <= j < k ==>
        Empty(entries[j].surface, entries[j].output) ||
        Consulted(entries[j].surface.deployer, entries[j].surface.site.Story(), |old(entries[j].surface.site.Story())|)
    {
      var site := entries[k].surface.site;
      assert site in Sites(entries);
      label Before:
      ghost var story := site.Story();
      var ok := PreviewOne(entries[k]);
      assert site.Story() == story + [site.trace];
      OneQuietMore(story, site.trace, |old(site.Story())|);
      forall j | 0 <= j < k
        ensures Empty(entries[j].surface, entries[j].output) ||
          Consulted(entries[j].surface.deployer, entries[j].surface.site.Story(),
            |old(entries[j].surface.site.Story())|)
      {
        var other := entries[j].surface;
        LaterStory(other.deployer, old@Before(other.site.Story()), other.site.Story(), |old(other.site.Story())|);
      }
      if !ok {
        return Some(k);
      }
      ConsultedSince(entries[k].surface.deployer, site.Story(), |site.past|, |old(site.Story())|);
    }
    return None;
  }

  lemma ConsultedSince(d: Deployer, story: seq<Trace>, from: nat, earlier: nat)
    requires earlier <= from
    ensures Consulted(d, story, from) ==> Consulted(d, story, earlier)
  {
    hide Quiet, Compatible, PreviewDone;
  }

  ghost predicate Cleaned(entries: seq<Entry>, k: nat)
    requires k <= |entries|
    reads Sites(entries)
  {
    forall j :: 0 <= j < k ==> entries[j].surface.site in Sites(entries) && Empty(entries[j].surface, entries[j].output)
  }

  /** Whether the journal takes the start and the end of an attempt. */
  datatype Journal = Journal(begun: bool, completed: bool)

  /** `attempt`: the record comes first, then the removal, then the record again.
      A missing record stops the cleanup, even when the device is already clean. */
  method Attempt(e: Entry, journal: Journal) returns (ok: bool)
    requires e.surface.site.Valid()
    modifies e.surface.site
    ensures e.surface.site.Valid()
    ensures ok ==> journal.begun && Empty(e.surface, e.output)
    ensures StayEmpty(old(e.surface.site.ledger), old(e.surface.site.groups), e.surface.site.ledger,
      e.surface.site.groups)
    ensures if journal.begun then e.surface.site.past == old(e.surface.site.Story()) else unchanged(e.surface.site)
    ensures journal.begun ==> Ended(e.surface.site.trace, old(RemovalOf(e)))
    ensures ok <==> journal.begun && journal.completed && FailureAt(e.surface.site.trace, old(RemovalOf(e))).None?
  {
    hide Ended, FailureAt, Told, NothingOwned, StayEmpty, Accounted;
    var site := e.surface.site;
    if !journal.begun {
      SameStaysEmpty(site.ledger, site.groups, e.output);
      return false;
    }
    ghost var j := RemovalOf(e);
    var report, seen := RemoveFromDevice(site, e.surface.deployer, AsRequest(e));
    FailureTold(report, site.trace, j);
    AppliedWithoutError(site.trace, report, site.device);
    ok := journal.completed && report.error.None?;
  }

  lemma AppliedWithoutError(t: Trace, r: Report, device: Config)
    requires Accounted(t, REMOVE_EXEMPT, r, device)
    ensures r.applied <==> r.error.None?
  {
  }

  /** This site is not the site of any of the first `n` entries. */
  ghost predicate Untouched(entries: seq<Entry>, n: nat, s: Site)
    requires n <= |entries|
  {
    forall j :: 0 <= j < n ==> entries[j].surface.site != s
  }

  lemma NoneTouched(entries: seq<Entry>)
    ensures forall s :: Untouched(entries, 0, s)
  {
  }

  lemma UntouchedMore(entries: seq<Entry>, n: nat)
    requires n < |entries|
    ensures forall s :: Untouched(entries, n + 1, s) <==> Untouched(entries, n, s) && entries[n].surface.site != s
  {
  }

  /** The attempt at this entry did not go through: a record is missing, or the
      removal itself failed. */
  ghost predicate Stopped(e: Entry, journal: Journal)
    reads e.surface.site
  {
    !journal.begun || !journal.completed ||
    exists j: Job :: j.removal && j.q == AsRequest(e) && j.d == e.surface.deployer && Failed(e.surface.site.trace, j)
  }

  /** The removal of entry `k`, which touches no site but its own. */
  method RemoveNext(entries: seq<Entry>, k: nat, journal: Journal) returns (ok: bool)
    requires k < |entries| && AllValid(Sites(entries)) && Cleaned(entries, k)
    modifies entries[k].surface.site
    ensures AllValid(Sites(entries)) && Cleaned(entries, k)
    ensures ok ==> journal.begun && journal.completed && Cleaned(entries, k + 1)
    ensures !ok ==> Stopped(entries[k], journal)
    ensures var site := entries[k].surface.site;
      if journal.begun then old(site.Story()) < site.Story() else unchanged(site)
    ensures var site := entries[k].surface.site; StayEmpty(old(site.ledger), old(site.groups), site.ledger, site.groups)
  {
    hide Site.Valid, NothingOwned, StayEmpty, Ended, FailureAt;
    var site := entries[k].surface.site;
    assert site in Sites(entries);
    ghost var j := RemovalOf(entries[k]);
    ok := Attempt(entries[k], journal);
    assert ok || !journal.begun || !journal.completed || Failed(site.trace, j);
    forall j | 0 <= j < k ensures Empty(entries[j].surface, entries[j].output) {
      StillEmpty(old(site.ledger), old(site.groups), site.ledger, site.groups, entries[j].surface.deployer,
        entries[j].output);
    }
  }

  /** The removals, one after the other, until one fails. */
  method RemoveAll(entries: seq<Entry>, journal: nat -> Journal) returns (failed: Option<nat>, ghost reached: nat)
    requires AllValid(Sites(entries))
    modifies Sites(entries)
    ensures AllValid(Sites(entries))
    ensures failed.None? ==>
      && reached == |entries| && Cleaned(entries, |entries|)
      && forall k: nat :: k < |entries| ==> journal(k) == Journal(true, true)
    ensures failed.Some? ==>
      && failed.value < |entries| && Stopped(entries[failed.value], journal(failed.value))
      && reached == failed.value + if journal(failed.value).begun then 1 else 0
    ensures reached <= |entries|
    ensures forall s :: s in Sites(entries) ==>
      if Untouched(entries, reached, s) then unchanged(s) else old(s.Story()) < s.Story()
    ensures forall s :: s in Sites(entries) ==> StayEmpty(old(s.ledger), old(s.groups), s.ledger, s.groups)
  {
    hide Site.Valid, NothingOwned, StayEmpty, Untouched, AllValid, Cleaned, Site.Story, Stopped;
    reached := 0;
    AllStayEmpty(Sites(entries));
    NoneTouched(entries);
    assert Cleaned(entries, 0) by {
      NothingCleaned(entries);
    }
    for k := 0 to |entries|
      invariant AllValid(Sites(entries)) && reached == k && Cleaned(entries, k)
      invariant forall i: nat :: i < k ==> journal(i) == Journal(true, true)
      invariant forall s :: s in Sites(entries) ==>
        if Untouched(entries, k, s) then unchanged(s) else old(s.Story()) < s.Story()
      invariant forall s :: s in Sites(entries) ==> StayEmpty(old(s.ledger), old(s.groups), s.ledger, s.groups)
    {
      var site := entries[k].surface.site;
      assert site in Sites(entries);
      ghost var ledger, groups, story := site.ledger, site.groups, site.Story();
      UntouchedMore(entries, k);
      var ok := RemoveNext(entries, k, journal(k));
      StayEmptyAgain(old(site.ledger), old(site.groups), ledger, groups, site.ledger, site.groups);
      if journal(k).begun {
        reached := k + 1;
      }
      if !ok {
        failed := Some(k);
        return;
      }
    }
    failed := None;
  }

  lemma NothingCleaned(entries: seq<Entry>)
    ensures Cleaned(entries, 0)
  {
  }

  lemma AllStayEmpty(sites: set<Site>)
    ensures forall s :: s in sites ==> StayEmpty(s.ledger, s.groups, s.ledger, s.groups)
  {
  }

  lemma StillEmpty(l: Ledger, g: map<Str, Groups>, l': Ledger, g': map<Str, Groups>, d: Deployer, o: Str)
    requires StayEmpty(l, g, l', g')
    ensures NothingOwned(l, g, d, o) ==> NothingOwned(l', g', d, o)
  {
  }

  lemma StayEmptyAgain(l: Ledger, g: map<Str, Groups>, l1: Ledger, g1: map<Str, Groups>,
      l2: Ledger, g2: map<Str, Groups>)
    requires StayEmpty(l, g, l1, g1) && StayEmpty(l1, g1, l2, g2)
    ensures StayEmpty(l, g, l2, g2)
  {
    hide NothingOwned;
  }

  ghost function Stories(sites: set<Site>): (r: map<Site, seq<Trace>>)
    reads sites
  {
    map s | s in sites :: s.Story()
  }

  /** Signing in needs a secret that cannot be read. */
  predicate Locked(e: Entry, readable: set<Str>) {
    e.surface.needsCredential && (e.chosen.Some? ==> e.chosen.value.id !in readable)
  }

  /** While the devices were asked, nothing was written on this site. If it was then
      `touched`, a removal started here; if not, everything is as it was. What was
      empty stays empty. */
  twostate predicate Kept(s: Site, heard: seq<Trace>, touched: bool)
    reads s
  {
    && old(s.Story()) <= heard && QuietSince(heard, |old(s.Story())|)
    && (if touched then heard < s.Story()
        else
          s.Story() == heard && s.ledger == old(s.ledger) && s.groups == old(s.groups) && s.history == old(s.history))
    && StayEmpty(old(s.ledger), old(s.groups), s.ledger, s.groups)
  }

  /** `clean`. By the traces of the sites: no removal starts on any site before every
      device was asked, each in its own trace and with nothing written; a refusal
      before that changes no ledger, and when a removal stops, the sites it had not
      come to are as they were. Success means that every entry's output owns nothing
      on its surface, and every refusal has its reason. `readable` are the saved
      connections whose secret can be read. */
  method Clean(entries: seq<Entry>, readable: set<Str>, journal: nat -> Journal)
    returns (refusal: Option<Refusal>, ghost heard: map<Site, seq<Trace>>, ghost reached: nat)
    requires AllValid(Sites(entries)) && forall e :: e in entries ==> Chosen(e)
    modifies Sites(entries)
    ensures AllValid(Sites(entries)) && reached <= |entries| && heard.Keys == Sites(entries)
    ensures refusal == Some(Blocking) <==> exists e :: e in entries && e.blocked != NotBlocked
    ensures refusal == Some(Credential) <==>
      (forall e :: e in entries ==> e.blocked == NotBlocked) && exists e :: e in entries && Locked(e, readable)
    ensures refusal.Some? && refusal.value.Previewing? ==>
      && refusal.value.at < |entries| && Refuses(entries[refusal.value.at])
      && |old(entries[refusal.value.at].surface.site.Story())| <= |entries[refusal.value.at].surface.site.past|
    ensures refusal.Some? && refusal.value.Removing? ==>
      refusal.value.at < |entries| && Stopped(entries[refusal.value.at], journal(refusal.value.at))
    ensures refusal.None? ==> reached == |entries| && Cleaned(entries, |entries|)
    ensures refusal.None? ==> forall k: nat :: k < |entries| ==> journal(k) == Journal(true, true)
    ensures forall s :: s in Sites(entries) ==> Kept(s, heard[s], !Untouched(entries, reached, s))
    ensures refusal == Some(Blocking) || refusal == Some(Credential) ==>
      forall s :: s in Sites(entries) ==> unchanged(s)
    ensures refusal.None? || refusal.value.Removing? ==>
      forall e :: e in entries ==>
        && e.surface.site in heard
        && (old(!Empty(e.surface, e.output)) ==>
          Consulted(e.surface.deployer, heard[e.surface.site], |old(e.surface.site.Story())|))
    ensures refusal.Some? && !refusal.value.Removing? ==> reached == 0
  {
    hide Site.Valid, NothingOwned, StayEmpty, Quiet, Consulted, QuietSince, Untouched, Failed, Stopped;
    NoneTouched(entries);
    AllStayEmpty(Sites(entries));
    heard, reached := Stories(Sites(entries)), 0;
    NothingSince(Sites(entries));
    for k := 0 to |entries|
      invariant forall j :: 0 <= j < k ==> entries[j].blocked == NotBlocked
    {
      if entries[k].blocked != NotBlocked {
        return Some(Blocking), heard, reached;
      }
    }
    for k := 0 to |entries|
      invariant forall j :: 0 <= j < k ==> !Locked(entries[j], readable)
    {
      var e := entries[k];
      assert e in entries && Chosen(e);
      if e.surface.needsCredential && e.chosen.value.id !in readable {
        assert Locked(e, readable);
        return Some(Credential), heard, reached;
      }
    }
    var refused := PreviewAll(entries);
    heard := Stories(Sites(entries));
    if refused.Some? {
      return Some(Previewing(refused.value)), heard, reached;
    }
    var failed;
    failed, reached := RemoveAll(entries, journal);
    return if failed.Some? then Some(Removing(failed.value)) else None, heard, reached;
  }

  lemma NothingSince(sites: set<Site>)
    ensures forall s :: s in sites ==> QuietSince(s.Story(), |s.Story()|)
  {
  }

  lemma ListedEntries(surfaces: seq<Surface>, outputs: seq<Output>, holding: set<(Surface, Str)>, entries: seq<Entry>)
    requires Places(entries) == AllOwing(surfaces, outputs, holding)
    ensures forall e :: e in entries ==> e.surface in surfaces
    ensures forall o, s :: o in outputs && s in surfaces && (s, o.id) in holding ==>
      exists j :: 0 <= j < |entries| && (entries[j].surface, entries[j].output) == (s, o.id)
  {
    hide AllOwing;
    AllOwingOf(surfaces, outputs, holding);
    forall e | e in entries ensures e.surface in surfaces {
      var i :| 0 <= i < |entries| && entries[i] == e;
      assert Places(entries)[i] in AllOwing(surfaces, outputs, holding);
    }
    forall o, s | o in outputs && s in surfaces && (s, o.id) in holding
      ensures exists j :: 0 <= j < |entries| && (entries[j].surface, entries[j].output) == (s, o.id)
    {
      assert (s, o.id) in Places(entries);
      var j :| 0 <= j < |entries| && Places(entries)[j] == (s, o.id);
    }
  }

  lemma BlockedSomewhere(surfaces: seq<Surface>, outputs: seq<Output>, holding: set<(Surface, Str)>,
      entries: seq<Entry>)
    requires Places(entries) == AllOwing(surfaces, outputs, holding)
    requires forall e :: e in entries ==> (e.blocked == NotBlocked <==> CanSignIn(e.surface))
    requires forall p :: p in holding ==> p.0 in surfaces && exists o :: o in outputs && o.id == p.1
    ensures (exists e :: e in entries && e.blocked != NotBlocked) <==> exists p :: p in holding && !CanSignIn(p.0)
    ensures holding == {} ==> entries == []
  {
    hide AllOwing, CanSignIn;
    AllOwingOf(surfaces, outputs, holding);
    forall e | e in entries ensures (e.surface, e.output) in holding {
      var i :| 0 <= i < |entries| && entries[i] == e;
      assert Places(entries)[i] in AllOwing(surfaces, outputs, holding);
    }
    forall p | p in holding && !CanSignIn(p.0) ensures exists e :: e in entries && e.blocked != NotBlocked {
      assert p in Places(entries);
      var i :| 0 <= i < |entries| && Places(entries)[i] == p;
      assert entries[i] in entries;
    }
    if entries != [] {
      assert entries[0] in entries;
    }
  }

  /** Every entry was cleaned, and what had no entry owned nothing before. */
  lemma EmptiedEverywhere(surfaces: seq<Surface>, outputs: seq<Output>, holding: set<(Surface, Str)>,
      entries: seq<Entry>)
    requires Places(entries) == AllOwing(surfaces, outputs, holding) && Cleaned(entries, |entries|)
    requires forall o, s :: o in outputs && s in surfaces && (s, o.id) !in holding ==> Empty(s, o.id)
    ensures forall o, s :: o in outputs && s in surfaces ==> Empty(s, o.id)
  {
    hide NothingOwned, Places, AllOwing;
    ListedEntries(surfaces, outputs, holding, entries);
    forall o, s | o in outputs && s in surfaces ensures Empty(s, o.id) {
      if (s, o.id) in holding {
        var j :| 0 <= j < |entries| && (entries[j].surface, entries[j].output) == (s, o.id);
        assert entries[j].surface.site in Sites(entries);
      }
    }
  }

  /** `RemoveOutput` and `DeleteProfile`: an output is retired only when its ledger
      is empty on every surface, and nothing is touched when the retirement itself
      would refuse (a profile that is archived, or one that is not). `persisted` is
      the answer of the retirement. */
  method Retire(surfaces: seq<Surface>, outputs: seq<Output>, permitted: bool, readable: set<Str>,
      journal: nat -> Journal, persisted: bool)
    returns (retired: bool, refusal: Option<Refusal>)
    requires AllValid(SurfaceSites(surfaces))
    modifies SurfaceSites(surfaces)
    ensures AllValid(SurfaceSites(surfaces))
    ensures retired <==> permitted && refusal.None? && persisted
    ensures permitted && refusal.None? ==> forall o, s :: o in outputs && s in surfaces ==> Empty(s, o.id)
    ensures !permitted ==> refusal.None? && forall s :: s in SurfaceSites(surfaces) ==> unchanged(s)
    ensures refusal == Some(Blocking) <==>
      permitted && exists p :: p in old(Holding(surfaces, outputs)) && !CanSignIn(p.0)
    ensures old(Holding(surfaces, outputs)) == {} ==>
      refusal.None? && forall s :: s in SurfaceSites(surfaces) ==> unchanged(s)
    ensures refusal.Some? && !refusal.value.Removing? ==>
      forall s :: s in SurfaceSites(surfaces) ==> s.ledger == old(s.ledger) && s.groups == old(s.groups)
  {
    hide Site.Valid, NothingOwned, Quiet, CanSignIn, Locked, Refuses, Stopped, Untouched, QuietSince, Consulted,
      Cleaned, StayEmpty, Places, AllOwing;
    refusal := None;
    if !permitted {
      return false, None;
    }
    ghost var holding := Holding(surfaces, outputs);
    var entries := Entries(surfaces, outputs);
    ListedEntries(surfaces, outputs, holding, entries);
    BlockedSomewhere(surfaces, outputs, holding, entries);
    NoneTouched(entries);
    assert Sites(entries) <= SurfaceSites(surfaces);
    ghost var heard, reached;
    refusal, heard, reached := Clean(entries, readable, journal);
    if refusal.Some? {
      if !refusal.value.Removing? {
        forall s | s in SurfaceSites(surfaces) ensures s.ledger == old(s.ledger) && s.groups == old(s.groups) {
          assert s in Sites(entries) ==> Untouched(entries, reached, s);
        }
      }
      return false, refusal;
    }
    forall o, s | o in outputs && s in surfaces && (s, o.id) !in holding ensures Empty(s, o.id) {
      assert s.site in SurfaceSites(surfaces);
      assert old(NothingOwned(s.site.ledger, s.site.groups, s.deployer, o.id));
      if s.site in Sites(entries) {
        StillEmpty(old(s.site.ledger), old(s.site.groups), s.site.ledger, s.site.groups, s.deployer, o.id);
      }
    }
    EmptiedEverywhere(surfaces, outputs, holding, entries);
    return persisted, None;
  }
}
