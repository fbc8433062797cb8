/** Importing a configuration: profiles are validated against a catalog that does
    not exist yet, and must resolve the same way once it does, under identities
    made up in between. internal/application/config_transfer.go. */
module ConfigImport {
  import opened Text
  import opened RouteLabels
  import opened Composition
  import opened Publication
  import opened Wrappers

  datatype Removal = ListRemoval(id: Str) | CategoryRemoval(id: Str)

  datatype Document = Document(customLists: seq<Str>, customCategories: seq<Str>, memberships: seq<Row>,
      removals: seq<Removal>)

  // The catalog as it will be: `transferCompositionCatalog`.
  datatype Prospect = Prospect(lists: set<Str>, categories: set<Str>, members: map<(Str, Str), Verdict>)

  // The identities `prepareApply` makes up for the document's references.
  datatype Identities = Identities(lists: map<Str, Str>, categories: map<Str, Str>)

  const CUSTOM: Str := [99, 117, 115, 116, 111, 109, 45]

  predicate IsCustom(id: Str) {
    CUSTOM <= id
  }

  lemma CustomPrefix(id: Str)
    ensures IsCustom(id) <==> exists rest :: id == CUSTOM + rest
  {
    if IsCustom(id) {
      assert id == CUSTOM + id[|CUSTOM|..];
    }
  }

  function Renamed(ids: map<Str, Str>, id: Str): Str {
    if id in ids then ids[id] else id
  }

  // -------------------------------------------------------------- the document

  /** Lists the document may refer to. */
  ghost function Portable(k: Catalog, d: Document): set<Str> {
    (k.lists - k.local) + Elements(d.customLists)
  }

  ghost function PortableCategories(k: Catalog, d: Document): set<Str> {
    (set c | c in k.categories && Elements(k.categories[c]) !! k.local) + Elements(d.customCategories)
  }

  /** A document may refer to its own entries and to what is shipped, but not to lists
      that only this machine has, nor to categories that hold one of them. */
  lemma WhatIsPortable(k: Catalog, d: Document, id: Str)
    ensures id in Portable(k, d) <==> id in d.customLists || (id in k.lists && id !in k.local)
    ensures id in PortableCategories(k, d) <==>
      id in d.customCategories || (id in k.categories && forall l :: l in k.categories[id] ==> l !in k.local)
  {
    assert id in d.customLists <==> id in Elements(d.customLists);
    assert id in d.customCategories <==> id in Elements(d.customCategories);
    if id in k.categories {
      assert forall l :: l in k.categories[id] <==> l in Elements(k.categories[id]);
    }
  }

  /** A shipped catalog never uses the reserved prefix, and its categories name
      lists that it has. */
  ghost predicate WellFormed(k: Catalog) {
    && (forall l :: l in k.lists ==> Slug(l) && !IsCustom(l))
    && (forall c :: c in k.categories ==> !IsCustom(c) && Elements(k.categories[c]) <= k.lists)
  }

  /** What `validateTransferShape` checks of these parts. */
  ghost predicate Accepted(k: Catalog, d: Document) {
    && (forall r :: r in d.customLists ==> IsCustom(r))
    && (forall r :: r in d.customCategories ==> IsCustom(r))
    && (forall r :: r in d.removals ==> !IsCustom(r.id))
    && (forall r :: r in d.removals ==> r.id in if r.ListRemoval? then Portable(k, d) else PortableCategories(k, d))
    && (forall r :: r in d.memberships ==> r.category in PortableCategories(k, d) && r.list in Portable(k, d))
  }

  ghost predicate Injective(m: map<Str, Str>) {
    forall x, y :: x in m && y in m && m[x] == m[y] ==> x == y
  }

  /** Nothing is lost by an injective renaming: it can be undone. */
  lemma InjectiveIsInvertible(m: map<Str, Str>)
    ensures Injective(m) <==> exists back: map<Str, Str> :: Undoes(m, back)
  {
    if Injective(m) {
      var back := map y | y in m.Values :: Origin(m, y);
      forall x | x in m ensures m[x] in back && back[m[x]] == x {
        assert m[x] in m.Values;
      }
      assert Undoes(m, back);
    }
  }

  ghost predicate Undoes(m: map<Str, Str>, back: map<Str, Str>) {
    forall x :: x in m ==> m[x] in back && back[m[x]] == x
  }

  ghost function Origin(m: map<Str, Str>, y: Str): Str
    requires y in m.Values
  {
    var x :| x in m && m[x] == y; x
  }

  /** Fresh identities: one for each reference, all different, with the reserved
      prefix. */
  ghost predicate Fresh(d: Document, ids: Identities) {
    && ids.lists.Keys == Elements(d.customLists) && Injective(ids.lists)
    && ids.categories.Keys == Elements(d.customCategories) && Injective(ids.categories)
    && (forall r :: r in ids.lists ==> IsCustom(ids.lists[r]) && Slug(ids.lists[r]))
    && (forall r :: r in ids.categories ==> IsCustom(ids.categories[r]) && Slug(ids.categories[r]))
  }

  // -------------------------------------------------------------- both catalogs

  ghost function RowMap(rows: seq<Row>): map<(Str, Str), Verdict> {
    if rows == [] then map[]
    else var r := rows[|rows| - 1]; RowMap(rows[..|rows| - 1])[(r.category, r.list) := r.state]
  }

  ghost function RemovedLists(d: Document): set<Str> {
    set r | r in d.removals && r.ListRemoval? :: r.id
  }

  ghost function RemovedCategories(d: Document): set<Str> {
    set r | r in d.removals && r.CategoryRemoval? :: r.id
  }

  ghost predicate Foresees(k: Catalog, d: Document, p: Prospect) {
    && p.lists == Portable(k, d) - RemovedLists(d)
    && p.categories == PortableCategories(k, d) - RemovedCategories(d)
    && forall c, l :: c in p.categories ==>
      ((c, l) in p.members && p.members[(c, l)].Added? <==>
        if (c, l) in RowMap(d.memberships) then RowMap(d.memberships)[(c, l)].Added? else l in Base(k, c))
  }

  function RenamedRow(ids: Identities, r: Row): Row {
    Row(Renamed(ids.categories, r.category), Renamed(ids.lists, r.list), r.state)
  }

  function RenamedRows(ids: Identities, rows: seq<Row>): seq<Row> {
    seq(|rows|, i requires 0 <= i < |rows| => RenamedRow(ids, rows[i]))
  }

  ghost function Installed(d: Document, ids: Identities): Overlay {
    Overlay(set r | r in d.customLists && r in ids.lists :: ids.lists[r],
      set r | r in d.customCategories && r in ids.categories :: ids.categories[r],
      RowMap(RenamedRows(ids, d.memberships)), RemovedLists(d), RemovedCategories(d))
  }

  // -------------------------------------------------------------- the loops

  lemma RowMapStep(rows: seq<Row>, i: nat)
    requires i < |rows|
    ensures RowMap(rows[..i + 1]) == RowMap(rows[..i])[(rows[i].category, rows[i].list) := rows[i].state]
  {
    assert rows[..i + 1][..i] == rows[..i];
  }

  /** `prepareTransferRegistries`. */
  method PrepareTransferRegistries(d: Document, ids: Identities) returns (v: Overlay)
    requires Elements(d.customLists) <= ids.lists.Keys && Elements(d.customCategories) <= ids.categories.Keys
    ensures v == Installed(d, ids)
  {
    var lists, categories: set<Str> := {}, {};
    for i := 0 to |d.customLists|
      invariant lists == set k | 0 <= k < i :: ids.lists[d.customLists[k]]
    {
      lists := lists + {ids.lists[d.customLists[i]]};
    }
    for i := 0 to |d.customCategories|
      invariant categories == set k | 0 <= k < i :: ids.categories[d.customCategories[k]]
    {
      categories := categories + {ids.categories[d.customCategories[i]]};
    }
    var membership: map<(Str, Str), Verdict> := map[];
    ghost var rows := RenamedRows(ids, d.memberships);
    for i := 0 to |d.memberships|
      invariant membership == RowMap(rows[..i])
    {
      RowMapStep(rows, i);
      var r := d.memberships[i];
      membership := membership[(Renamed(ids.categories, r.category), Renamed(ids.lists, r.list)) := r.state];
    }
    assert rows[..|rows|] == rows;
    var removedLists, removedCategories := SplitRemovals(d);
    v := Overlay(lists, categories, membership, removedLists, removedCategories);
  }

  method SplitRemovals(d: Document) returns (lists: set<Str>, categories: set<Str>)
    ensures lists == RemovedLists(d) && categories == RemovedCategories(d)
  {
    lists, categories := {}, {};
    for i := 0 to |d.removals|
      invariant lists == set k | 0 <= k < i && d.removals[k].ListRemoval? :: d.removals[k].id
      invariant categories == set k | 0 <= k < i && d.removals[k].CategoryRemoval? :: d.removals[k].id
    {
      match d.removals[i]
      case ListRemoval(id) => lists := lists + {id};
      case CategoryRemoval(id) => categories := categories + {id};
    }
  }

  ghost predicate Lookup(k: Catalog, rows: seq<Row>, categories: set<Str>, members: map<(Str, Str), Verdict>) {
    forall c, l ::
      ((c, l) in members <==> c in categories && ((c, l) in RowMap(rows) || l in Base(k, c))) &&
      ((c, l) in members ==> members[(c, l)] == if (c, l) in RowMap(rows) then RowMap(rows)[(c, l)] else Added)
  }

  method ShippedVerdicts(k: Catalog, categories: set<Str>) returns (members: map<(Str, Str), Verdict>)
    ensures Lookup(k, [], categories, members)
  {
    members := map[];
    var rest := categories;
    while rest != {}
      invariant rest <= categories
      invariant forall c, l :: (c, l) in members <==> c in categories - rest && l in Base(k, c)
      invariant forall m :: m in members ==> members[m] == Added
      decreases |rest|
    {
      var c :| c in rest;
      var base := Base(k, c);
      ghost var before := members;
      for i := 0 to |base|
        invariant forall x, l :: (x, l) in members <==> (x, l) in before || (x == c && l in base[..i])
        invariant forall m :: m in members ==> members[m] == Added
      {
        assert base[..i + 1] == base[..i] + [base[i]];
        members := members[(c, base[i]) := Added];
      }
      rest := rest - {c};
    }
  }

  /** `transferCompositionCatalog`. */
  method TransferCompositionCatalog(k: Catalog, d: Document, lists: set<Str>, categories: set<Str>)
    returns (p: Prospect)
    requires lists == Portable(k, d) && categories == PortableCategories(k, d)
    ensures Foresees(k, d, p)
  {
    hide Portable, PortableCategories, RemovedLists, RemovedCategories;
    var removedLists, removedCategories := SplitRemovals(d);
    var effective := categories - removedCategories;
    var members := ShippedVerdicts(k, effective);
    assert d.memberships[..0] == [];
    for i := 0 to |d.memberships|
      invariant Lookup(k, d.memberships[..i], effective, members)
    {
      RowMapStep(d.memberships, i);
      var r := d.memberships[i];
      if r.category in effective {
        members := members[(r.category, r.list) := r.state];
      }
    }
    assert d.memberships[..|d.memberships|] == d.memberships;
    p := Prospect(lists - removedLists, effective, members);
  }

  // -------------------------------------------------------------- one profile

  ghost function ForeseenSet(c: Choice, p: Prospect): set<Str> {
    set l | l in p.lists && l !in c.exclusions &&
      (l in c.lists || exists cat :: cat in c.categories && (cat, l) in p.members && p.members[(cat, l)].Added?)
  }

  /** Everything the profile names is foreseen. */
  ghost predicate NamesKnown(c: Choice, p: Prospect) {
    && (forall l :: l in c.lists ==> l in p.lists) && (forall l :: l in c.exclusions ==> l in p.lists)
    && (forall cat :: cat in c.categories ==> cat in p.categories)
  }

  ghost predicate Sound(c: Choice, p: Prospect) {
    && |Stable(c.lists)| <= MAX_ITEMS && |Stable(c.categories)| <= MAX_ITEMS && |Stable(c.exclusions)| <= MAX_ITEMS
    && AllKnown(c.lists, p.lists) && AllKnown(c.categories, p.categories) && AllKnown(c.exclusions, p.lists)
    && (forall l :: l in c.exclusions ==> l !in c.lists)
    && ForeseenSet(c, p) != {}
  }

  ghost function Validated(c: Choice, p: Prospect, grammar: Grammar): Option<Choice> {
    if !Sound(c, p) then None
    else
      var domains := NormalDomains(c.domains, ForeseenSet(c, p), grammar);
      var order := Normalized(c.priority, Sorted(ForeseenSet(c, p)));
      if domains.None? || order.None? then None
      else Some(Choice(Stable(c.lists), Stable(c.categories), Stable(c.exclusions), order.value, domains.value))
  }

  predicate Holds(p: Prospect, cat: Str, l: Str) {
    l in p.lists && (cat, l) in p.members && p.members[(cat, l)].Added?
  }

  ghost predicate Brings(categories: seq<Str>, p: Prospect, l: Str) {
    exists cat :: cat in categories && Holds(p, cat, l)
  }

  method CarriedLists(categories: seq<Str>, p: Prospect, start: seq<Str>) returns (resolved: seq<Str>)
    ensures forall l :: l in resolved <==> (l in start || Brings(categories, p, l))
  {
    resolved := start;
    for i := 0 to |categories|
      invariant forall l :: l in resolved <==> (l in start || Brings(categories[..i], p, l))
    {
      var rest := set m | m in p.members && m.0 == categories[i];
      ghost var before := resolved;
      while rest != {}
        invariant forall m :: m in rest ==> m in p.members && m.0 == categories[i]
        invariant forall l :: l in resolved <==>
          (l in before || (Holds(p, categories[i], l) && (categories[i], l) !in rest))
        decreases |rest|
      {
        var m :| m in rest;
        assert m == (categories[i], m.1);
        if p.members[m].Added? && m.1 in p.lists {
          resolved := resolved + [m.1];
        }
        rest := rest - {m};
      }
      assert categories[..i + 1] == categories[..i] + [categories[i]];
    }
    assert categories[..|categories|] == categories;
  }

  /** `validTransferComposition`. */
  method ValidTransferComposition(c: Choice, p: Prospect, grammar: Grammar) returns (r: Option<Choice>)
    ensures r == Validated(c, p, grammar)
  {
    hide Stable, Slug, Normalized, Sorted, Elements, NormalDomains;
    var lists, categories, exclusions := Stable(c.lists), Stable(c.categories), Stable(c.exclusions);
    StableSorts(c.lists);
    StableSorts(c.categories);
    StableSorts(c.exclusions);
    SameKnown(lists, c.lists, p.lists);
    SameKnown(categories, c.categories, p.categories);
    SameKnown(exclusions, c.exclusions, p.lists);
    if |lists| > MAX_ITEMS || |categories| > MAX_ITEMS || |exclusions| > MAX_ITEMS {
      return None;
    }
    for i := 0 to |lists|
      invariant AllKnown(lists[..i], p.lists)
    {
      if !Slug(lists[i]) || lists[i] !in p.lists {
        return None;
      }
    }
    for i := 0 to |categories|
      invariant AllKnown(categories[..i], p.categories)
    {
      if !Slug(categories[i]) || categories[i] !in p.categories {
        return None;
      }
    }
    for i := 0 to |exclusions|
      invariant AllKnown(exclusions[..i], p.lists) && forall j :: 0 <= j < i ==> exclusions[j] !in lists
    {
      if !Slug(exclusions[i]) || exclusions[i] !in p.lists {
        return None;
      }
      if exclusions[i] in lists {
        return None;
      }
    }
    var resolved := CarriedLists(categories, p, lists);
    var kept: seq<Str> := [];
    for i := 0 to |resolved|
      invariant forall l :: l in kept <==> l in resolved[..i] && l !in exclusions
    {
      if resolved[i] !in exclusions {
        kept := kept + [resolved[i]];
      }
    }
    var stable := Stable(kept);
    assert Elements(kept) == ForeseenSet(c, p) by {
      Foreseen(c, p, lists, categories, exclusions, kept);
    }
    SortedIsStable(kept);
    SortedElements(ForeseenSet(c, p));
    if |stable| == 0 {
      NoElements();
      return None;
    }
    assert ForeseenSet(c, p) != {} by {
      SomeElement(stable);
    }
    var domains := NormalizeListDomains(c.domains, stable, grammar);
    if domains.None? {
      return None;
    }
    var priority := NormalizePriority(c.priority, stable);
    NormalizedWhen(c.priority, stable);
    if priority.None? {
      return None;
    }
    return Some(Choice(lists, categories, exclusions, priority.value, domains.value));
  }

  lemma Foreseen(c: Choice, p: Prospect, lists: seq<Str>, categories: seq<Str>, exclusions: seq<Str>, kept: seq<Str>)
    requires (forall x :: x in lists <==> x in c.lists) && (forall x :: x in categories <==> x in c.categories)
    requires forall x :: x in exclusions <==> x in c.exclusions
    requires AllKnown(lists, p.lists)
    requires forall l :: l in kept <==> (l in lists || Brings(categories, p, l)) && l !in exclusions
    ensures Elements(kept) == ForeseenSet(c, p)
  {
    hide Slug;
    forall l ensures l in kept <==> l in ForeseenSet(c, p) {
      if Brings(categories, p, l) {
        var cat :| cat in categories && Holds(p, cat, l);
        assert cat in c.categories;
      }
      if l in ForeseenSet(c, p) && l !in c.lists {
        var cat :| cat in c.categories && (cat, l) in p.members && p.members[(cat, l)].Added?;
        assert cat in categories && Holds(p, cat, l);
      }
    }
  }

  // -------------------------------------------------------------- agreement

  ghost function Image(ids: map<Str, Str>, s: set<Str>): set<Str> {
    set l | l in s :: Renamed(ids, l)
  }

  function RenamedSeq(ids: map<Str, Str>, s: seq<Str>): seq<Str> {
    seq(|s|, i requires 0 <= i < |s| => Renamed(ids, s[i]))
  }

  /** Domains move with the list they are for. */
  ghost function RenamedDomains(ids: map<Str, Str>, domains: map<Str, seq<Str>>): map<Str, seq<Str>> {
    map x | x in Image(ids, domains.Keys) :: var l :| l in domains && Renamed(ids, l) == x; domains[l]
  }

  ghost function RenamedChoice(ids: Identities, c: Choice): Choice {
    Choice(RenamedSeq(ids.lists, c.lists), RenamedSeq(ids.categories, c.categories),
      RenamedSeq(ids.lists, c.exclusions), RenamedSeq(ids.lists, c.priority), RenamedDomains(ids.lists, c.domains))
  }

  ghost predicate OneToOne(ids: map<Str, Str>, s: set<Str>) {
    forall x, y :: x in s && y in s && Renamed(ids, x) == Renamed(ids, y) ==> x == y
  }

  /** Renaming confuses nothing that the document can refer to. */
  lemma RenamingIsFaithful(k: Catalog, d: Document, ids: Identities)
    requires WellFormed(k) && Accepted(k, d) && Fresh(d, ids)
    ensures OneToOne(ids.lists, Portable(k, d)) && OneToOne(ids.categories, PortableCategories(k, d))
    ensures forall l :: l in k.lists - k.local ==> Renamed(ids.lists, l) == l
    ensures forall c :: c in k.categories ==> Renamed(ids.categories, c) == c
  {
    hide Slug, IsCustom;
  }

  lemma RenamedIn(ids: map<Str, Str>, s: seq<Str>)
    ensures Elements(RenamedSeq(ids, s)) == Image(ids, Elements(s))
    ensures forall x :: x in RenamedSeq(ids, s) <==> x in Image(ids, Elements(s))
  {
    var r := RenamedSeq(ids, s);
    forall x | x in r ensures x in Image(ids, Elements(s)) {
      var i :| 0 <= i < |r| && r[i] == x;
      assert s[i] in Elements(s);
    }
    forall x | x in Image(ids, Elements(s)) ensures x in r {
      var l :| l in Elements(s) && Renamed(ids, l) == x;
      var i :| 0 <= i < |s| && s[i] == l;
      assert r[i] == x;
    }
  }

  /** Looking a verdict up before and after the renaming is the same. */
  lemma {:induction false} RowsRenamed(ids: Identities, rows: seq<Row>, categories: set<Str>, lists: set<Str>, c: Str,
      l: Str)
    requires OneToOne(ids.categories, categories) && OneToOne(ids.lists, lists) && c in categories && l in lists
    requires forall r :: r in rows ==> r.category in categories && r.list in lists
    ensures var m, m', key :=
      RowMap(rows), RowMap(RenamedRows(ids, rows)), (Renamed(ids.categories, c), Renamed(ids.lists, l));
      (key in m' <==> (c, l) in m) && ((c, l) in m ==> m'[key] == m[(c, l)])
  {
    if rows != [] {
      var n := |rows| - 1;
      assert RenamedRows(ids, rows)[..n] == RenamedRows(ids, rows[..n]);
      RowsRenamed(ids, rows[..n], categories, lists, c, l);
      assert rows[n] in rows;
    }
  }

  /** Every installed verdict comes from the document. */
  lemma {:induction false} RowsFromDocument(ids: Identities, rows: seq<Row>, lists: set<Str>, key: (Str, Str))
    requires forall r :: r in rows ==> r.list in lists
    requires key in RowMap(RenamedRows(ids, rows))
    ensures key.1 in Image(ids.lists, lists)
  {
    if rows != [] {
      var n := |rows| - 1;
      assert RenamedRows(ids, rows)[..n] == RenamedRows(ids, rows[..n]);
      assert rows[n] in rows;
      if key in RowMap(RenamedRows(ids, rows[..n])) {
        RowsFromDocument(ids, rows[..n], lists, key);
      }
    }
  }

  lemma InstalledLists(k: Catalog, d: Document, ids: Identities)
    requires WellFormed(k) && Accepted(k, d) && Fresh(d, ids)
    ensures forall l :: l in Portable(k, d) ==>
      (HasList(k, Installed(d, ids), Renamed(ids.lists, l)) <==> l !in RemovedLists(d))
    ensures forall x :: HasList(k, Installed(d, ids), x) ==> x in k.local || x in Image(ids.lists, Portable(k, d))
  {
    hide Slug, IsCustom;
    RenamingIsFaithful(k, d, ids);
    var v := Installed(d, ids);
    forall l | l in Portable(k, d) ensures HasList(k, v, Renamed(ids.lists, l)) <==> l !in RemovedLists(d) {
      if l in ids.lists {
        assert l in d.customLists && ids.lists[l] in v.customLists;
      }
    }
    forall x | HasList(k, v, x) ensures x in k.local || x in Image(ids.lists, Portable(k, d)) {
      if x in v.customLists {
        var r :| r in d.customLists && r in ids.lists && ids.lists[r] == x;
        assert r in Portable(k, d) && Renamed(ids.lists, r) == x;
      } else if x !in k.local {
        assert x in Portable(k, d) && Renamed(ids.lists, x) == x;
      }
    }
  }

  lemma InstalledCategories(k: Catalog, d: Document, ids: Identities, c: Str)
    requires WellFormed(k) && Accepted(k, d) && Fresh(d, ids) && c in PortableCategories(k, d)
    ensures HasCategory(k, Installed(d, ids), Renamed(ids.categories, c)) <==> c !in RemovedCategories(d)
    ensures Base(k, Renamed(ids.categories, c)) == Base(k, c) && Elements(Base(k, c)) !! k.local
  {
    hide Slug, IsCustom;
    RenamingIsFaithful(k, d, ids);
    if c in ids.categories {
      assert c in d.customCategories && ids.categories[c] in Installed(d, ids).customCategories;
    }
  }

  ghost function Held(p: Prospect, c: Str): set<Str> {
    set l | l in p.lists && Holds(p, c, l)
  }

  lemma InstalledMember(k: Catalog, d: Document, ids: Identities, p: Prospect, c: Str, l: Str)
    requires WellFormed(k) && Accepted(k, d) && Fresh(d, ids) && Foresees(k, d, p) && c in p.categories &&
      l in Portable(k, d)
    ensures Renamed(ids.lists, l) in Members(k, Installed(d, ids), Renamed(ids.categories, c)) <==> l in Held(p, c)
  {
    hide Slug, IsCustom, HasList, PortableCategories, Portable;
    RenamingIsFaithful(k, d, ids);
    InstalledLists(k, d, ids);
    InstalledCategories(k, d, ids, c);
    RowsRenamed(ids, d.memberships, PortableCategories(k, d), Portable(k, d), c, l);
    ShippedMember(k, d, ids, c, l);
    var v := Installed(d, ids);
    HasListMeans(k, v, Renamed(ids.lists, l));
  }

  lemma HasListMeans(k: Catalog, v: Overlay, l: Str)
    ensures HasList(k, v, l) ==> l in k.lists + v.customLists
  {
  }

  /** A shipped category's list keeps its name. */
  lemma ShippedMember(k: Catalog, d: Document, ids: Identities, c: Str, l: Str)
    requires WellFormed(k) && Accepted(k, d) && Fresh(d, ids) && c in PortableCategories(k, d) && l in Portable(k, d)
    ensures Renamed(ids.lists, l) in Base(k, c) <==> l in Base(k, c)
  {
    hide Slug, IsCustom;
    RenamingIsFaithful(k, d, ids);
    if c in k.categories {
      assert forall x :: x in Base(k, c) ==> x in Elements(k.categories[c]);
    }
  }

  lemma InstalledMembers(k: Catalog, d: Document, ids: Identities, p: Prospect, c: Str)
    requires WellFormed(k) && Accepted(k, d) && Fresh(d, ids) && Foresees(k, d, p) && c in p.categories
    ensures Members(k, Installed(d, ids), Renamed(ids.categories, c)) == Image(ids.lists, Held(p, c))
  {
    hide Slug, IsCustom, HasList, PortableCategories, Portable, Members;
    var v := Installed(d, ids);
    forall l | l in Portable(k, d)
      ensures Renamed(ids.lists, l) in Members(k, v, Renamed(ids.categories, c)) <==> l in Held(p, c)
    {
      InstalledMember(k, d, ids, p, c, l);
    }
    forall x | x in Members(k, v, Renamed(ids.categories, c)) ensures x in Image(ids.lists, Held(p, c)) {
      NotLocal(k, d, ids, c, x);
      var l :| l in Portable(k, d) && Renamed(ids.lists, l) == x;
    }
    assert p.lists <= Portable(k, d);
  }

  lemma NotLocal(k: Catalog, d: Document, ids: Identities, c: Str, x: Str)
    requires WellFormed(k) && Accepted(k, d) && Fresh(d, ids) && c in PortableCategories(k, d)
    requires x in Members(k, Installed(d, ids), Renamed(ids.categories, c))
    ensures x in Image(ids.lists, Portable(k, d))
  {
    hide Slug, IsCustom, PortableCategories, Portable;
    InstalledLists(k, d, ids);
    InstalledCategories(k, d, ids, c);
    var key := (Renamed(ids.categories, c), x);
    if key in Installed(d, ids).membership {
      RowsFromDocument(ids, d.memberships, Portable(k, d), key);
    } else {
      assert x in Elements(Base(k, c));
    }
  }

  ghost predicate Import(k: Catalog, d: Document, ids: Identities, p: Prospect) {
    WellFormed(k) && Accepted(k, d) && Fresh(d, ids) && Foresees(k, d, p)
  }

  lemma InstalledCarried(k: Catalog, d: Document, ids: Identities, p: Prospect, categories: seq<Str>, x: Str)
    requires Import(k, d, ids, p) && forall c :: c in categories ==> c in p.categories
    ensures x in Carried(k, Installed(d, ids), RenamedSeq(ids.categories, categories)) <==>
      exists c :: c in categories && x in Image(ids.lists, Held(p, c))
  {
    hide Slug, IsCustom, HasList, HasCategory, PortableCategories, Portable, Members, Base;
    var v, cs := Installed(d, ids), RenamedSeq(ids.categories, categories);
    CarriedBy(k, v, cs, x);
    forall c | c in categories
      ensures HasCategory(k, v, Renamed(ids.categories, c))
      ensures Members(k, v, Renamed(ids.categories, c)) == Image(ids.lists, Held(p, c))
    {
      InstalledMembers(k, d, ids, p, c);
      InstalledCategories(k, d, ids, c);
    }
    RenamedIn(ids.categories, categories);
    if x in Carried(k, v, cs) {
      var c' :| c' in cs && HasCategory(k, v, c') && x in Members(k, v, c');
      var c :| c in Elements(categories) && Renamed(ids.categories, c) == c';
      assert c in categories;
    }
    if c :| c in categories && x in Image(ids.lists, Held(p, c)) {
      assert c in Elements(categories);
      assert Renamed(ids.categories, c) in cs;
    }
  }

  lemma InImage(ids: map<Str, Str>, domain: set<Str>, s: set<Str>, l: Str)
    requires OneToOne(ids, domain) && l in domain && s <= domain
    ensures Renamed(ids, l) in Image(ids, s) <==> l in s
  {
  }

  /** One list is resolved after the import exactly when it was foreseen. */
  lemma InstalledChoice(k: Catalog, d: Document, ids: Identities, p: Prospect, c: Choice, l: Str)
    requires Import(k, d, ids, p) && NamesKnown(c, p) && l in p.lists
    ensures Renamed(ids.lists, l) in ResolvedSet(k, Installed(d, ids), RenamedChoice(ids, c)) <==>
      l in ForeseenSet(c, p)
  {
    hide Slug, IsCustom, HasList, HasCategory, PortableCategories, Members, Stable, RemovedLists, RemovedCategories,
      Carried, Holds;
    RenamingIsFaithful(k, d, ids);
    InstalledLists(k, d, ids);
    InstalledCarried(k, d, ids, p, c.categories, Renamed(ids.lists, l));
    RenamedIn(ids.lists, c.lists);
    RenamedIn(ids.lists, c.exclusions);
    var all := Portable(k, d);
    assert Elements(c.lists) <= all && Elements(c.exclusions) <= all;
    InImage(ids.lists, all, Elements(c.lists), l);
    InImage(ids.lists, all, Elements(c.exclusions), l);
    forall cat | cat in c.categories
      ensures Renamed(ids.lists, l) in Image(ids.lists, Held(p, cat)) <==> l in Held(p, cat)
    {
      InImage(ids.lists, all, Held(p, cat), l);
    }
    ForeseenByCategory(c, p, l);
  }

  lemma ForeseenByCategory(c: Choice, p: Prospect, l: Str)
    requires l in p.lists
    ensures l in ForeseenSet(c, p) <==>
      l !in c.exclusions && (l in c.lists || exists cat :: cat in c.categories && l in Held(p, cat))
  {
    if l in ForeseenSet(c, p) && l !in c.lists {
      var cat :| cat in c.categories && (cat, l) in p.members && p.members[(cat, l)].Added?;
      assert l in Held(p, cat);
    }
  }

  lemma OnlyImages(k: Catalog, d: Document, ids: Identities, p: Prospect, c: Choice, x: Str)
    requires Import(k, d, ids, p) && NamesKnown(c, p)
    ensures x in ResolvedSet(k, Installed(d, ids), RenamedChoice(ids, c)) ==> x in Image(ids.lists, p.lists)
  {
    hide Slug, IsCustom, HasList, HasCategory, PortableCategories, Portable, Members, Stable, RemovedLists,
      RemovedCategories, Carried, Holds;
    InstalledCarried(k, d, ids, p, c.categories, x);
    RenamedIn(ids.lists, c.lists);
    if x in Image(ids.lists, Elements(c.lists)) {
      var l :| l in Elements(c.lists) && Renamed(ids.lists, l) == x;
      assert l in p.lists;
    } else if x in ResolvedSet(k, Installed(d, ids), RenamedChoice(ids, c)) {
      var cat :| cat in c.categories && x in Image(ids.lists, Held(p, cat));
    }
  }

  lemma InstalledSet(k: Catalog, d: Document, ids: Identities, p: Prospect, c: Choice)
    requires Import(k, d, ids, p) && NamesKnown(c, p)
    ensures ResolvedSet(k, Installed(d, ids), RenamedChoice(ids, c)) == Image(ids.lists, ForeseenSet(c, p))
  {
    hide Slug, Import, NamesKnown, ResolvedSet, ForeseenSet, Installed;
    var s := ResolvedSet(k, Installed(d, ids), RenamedChoice(ids, c));
    forall x | x in s ensures x in Image(ids.lists, ForeseenSet(c, p)) {
      OnlyImages(k, d, ids, p, c, x);
      var l :| l in p.lists && Renamed(ids.lists, l) == x;
      InstalledChoice(k, d, ids, p, c, l);
    }
    forall x | x in Image(ids.lists, ForeseenSet(c, p)) ensures x in s {
      var l :| l in ForeseenSet(c, p) && Renamed(ids.lists, l) == x;
      ForeseenExists(c, p);
      InstalledChoice(k, d, ids, p, c, l);
    }
  }

  lemma ForeseenExists(c: Choice, p: Prospect)
    ensures ForeseenSet(c, p) <= p.lists
  {
  }

  lemma SortedDistinct(s: seq<Str>)
    requires Increasing(s)
    ensures Distinct(s)
  {
    forall i, j | 0 <= i < j < |s| ensures s[i] != s[j] {
      LessIrreflexive(s[i]);
    }
  }

  /** A validated choice is sound itself, foresees the same lists, and orders all
      of them. */
  lemma ValidatedIsSound(c: Choice, p: Prospect, grammar: Grammar)
    requires Validated(c, p, grammar).Some?
    ensures var checked := Validated(c, p, grammar).value;
      && Sound(checked, p) && NamesKnown(checked, p) && ForeseenSet(checked, p) == ForeseenSet(c, p)
      && Distinct(checked.priority) && Elements(checked.priority) == ForeseenSet(c, p)
  {
    hide Slug, Stable, Sorted, Filter, Requestable, Normalized, NormalDomains;
    var checked := Validated(c, p, grammar).value;
    StableSorts(c.lists);
    StableSorts(c.categories);
    StableSorts(c.exclusions);
    StableFixed(checked.lists);
    StableFixed(checked.categories);
    StableFixed(checked.exclusions);
    SameKnown(checked.lists, c.lists, p.lists);
    SameKnown(checked.categories, c.categories, p.categories);
    SameKnown(checked.exclusions, c.exclusions, p.lists);
    assert ForeseenSet(checked, p) == ForeseenSet(c, p);
    var s := Sorted(ForeseenSet(c, p));
    SortedElements(ForeseenSet(c, p));
    SortedDistinct(s);
    NormalizedWhen(c.priority, s);
    NormalizedIsComplete(c.priority, s);
  }

  lemma RenamedOrder(ids: map<Str, Str>, all: set<Str>, s: seq<Str>)
    requires OneToOne(ids, all) && Elements(s) <= all && Distinct(s)
    requires forall l :: l in all ==> Slug(Renamed(ids, l))
    ensures Requestable(RenamedSeq(ids, s), Image(ids, Elements(s)))
  {
    hide Slug;
    var r := RenamedSeq(ids, s);
    RenamedIn(ids, s);
    forall i | 0 <= i < |s| ensures s[i] in all && r[i] in Image(ids, Elements(s)) {
      assert s[i] in Elements(s);
      assert r[i] in r;
    }
  }

  lemma RenamedSlugs(k: Catalog, d: Document, ids: Identities)
    requires WellFormed(k) && Accepted(k, d) && Fresh(d, ids)
    ensures forall l :: l in Portable(k, d) ==> Slug(Renamed(ids.lists, l))
  {
    hide Slug, IsCustom;
  }

  ghost predicate MovedTo(ids: map<Str, Str>, domains: map<Str, seq<Str>>, renamed: map<Str, seq<Str>>) {
    renamed.Keys == Image(ids, domains.Keys) && forall l :: l in domains ==> renamed[Renamed(ids, l)] == domains[l]
  }

  lemma DomainsRenamed(ids: map<Str, Str>, all: set<Str>, domains: map<Str, seq<Str>>)
    requires OneToOne(ids, all) && domains.Keys <= all
    ensures MovedTo(ids, domains, RenamedDomains(ids, domains))
  {
    forall l | l in domains
      ensures Renamed(ids, l) in RenamedDomains(ids, domains)
      ensures RenamedDomains(ids, domains)[Renamed(ids, l)] == domains[l]
    {
      assert l in domains.Keys;
    }
  }

  /** The domains kept for a list are the canonical forms of those that were asked for,
      each once and in order. */
  ghost predicate KeepsDomains(asked: map<Str, seq<Str>>, kept: map<Str, seq<Str>>, grammar: Grammar) {
    && kept.Keys == asked.Keys
    && forall l :: l in asked ==>
      && Text.Increasing(kept[l])
      && (forall v :: v in asked[l] ==> grammar(v).Some? && grammar(v).value in kept[l])
      && (forall x :: x in kept[l] ==> exists v :: v in asked[l] && grammar(v) == Some(x))
  }

  lemma ValidatedDomains(c: Choice, p: Prospect, grammar: Grammar)
    requires Validated(c, p, grammar).Some?
    ensures c.domains.Keys <= ForeseenSet(c, p)
    ensures KeepsDomains(c.domains, Validated(c, p, grammar).value.domains, grammar)
  {
    hide Slug, Stable, Sorted, Normalized, ForeseenSet, Sound, Pairs, Text.Increasing;
    var kept := Validated(c, p, grammar).value.domains;
    assert kept == CanonicalDomains(c.domains, grammar);
    forall l | l in c.domains
      ensures Text.Increasing(kept[l]) && forall x :: x in kept[l] <==> x in CanonicalSet(c.domains[l], grammar)
    {
      SortedElements(CanonicalSet(c.domains[l], grammar));
      assert forall x :: x in kept[l] <==> x in Elements(kept[l]);
    }
  }

  /** Import validation agrees with the installed state. For every accepted document
      and all fresh identities, a profile resolves against the installed library to
      exactly the order validation computed for it, renamed; also where the new
      identities sort differently from the references they replace. And each domain
      override is for a list that resolves. */
  lemma ImportAgrees(k: Catalog, d: Document, ids: Identities, p: Prospect, c: Choice, grammar: Grammar)
    requires Import(k, d, ids, p) && Validated(c, p, grammar).Some?
    ensures var checked := Validated(c, p, grammar).value;
      Resolved(k, Installed(d, ids), RenamedChoice(ids, checked)) == RenamedSeq(ids.lists, checked.priority)
    ensures var checked := Validated(c, p, grammar).value;
      var domains := RenamedChoice(ids, checked).domains;
      && domains.Keys <= Elements(RenamedSeq(ids.lists, checked.priority))
      && forall l :: l in checked.domains ==>
        Renamed(ids.lists, l) in domains && domains[Renamed(ids.lists, l)] == checked.domains[l]
    ensures KeepsDomains(c.domains, Validated(c, p, grammar).value.domains, grammar)
  {
    hide Slug, Sorted, Filter, Normalized, Requestable, ResolvedSet, ForeseenSet, Installed, Validated, Sound,
      Distinct, RenamedDomains;
    var checked := Validated(c, p, grammar).value;
    ValidatedIsSound(c, p, grammar);
    InstalledSet(k, d, ids, p, checked);
    var s := Sorted(ResolvedSet(k, Installed(d, ids), RenamedChoice(ids, checked)));
    SortedElements(ResolvedSet(k, Installed(d, ids), RenamedChoice(ids, checked)));
    var order := RenamedSeq(ids.lists, checked.priority);
    RenamedIn(ids.lists, checked.priority);
    RenamingIsFaithful(k, d, ids);
    RenamedSlugs(k, d, ids);
    ForeseenExists(c, p);
    RenamedOrder(ids.lists, Portable(k, d), checked.priority);
    CompleteIsFixed(order, s);
    ValidatedDomains(c, p, grammar);
    DomainsRenamed(ids.lists, Portable(k, d), checked.domains);
  }

  // -------------------------------------------------------------- the same profiles are accepted

  /** The profile names only what the document may refer to. */
  ghost predicate Referable(k: Catalog, d: Document, c: Choice) {
    && (forall l :: l in c.lists ==> l in Portable(k, d)) && (forall l :: l in c.exclusions ==> l in Portable(k, d))
    && (forall l :: l in c.priority ==> l in Portable(k, d)) && c.domains.Keys <= Portable(k, d)
    && (forall cat :: cat in c.categories ==> cat in PortableCategories(k, d))
  }

  ghost predicate AllSlugs(ids: seq<Str>) {
    forall x :: x in ids ==> Slug(x)
  }

  /** The references are names that the installed state accepts too. */
  ghost predicate SluggedLists(c: Choice) {
    && AllSlugs(c.lists) && AllSlugs(c.exclusions) && AllSlugs(c.priority)
    && forall l :: l in c.domains ==> Slug(l)
  }

  lemma {:induction false} ImageCount(ids: map<Str, Str>, all: set<Str>, s: set<Str>)
    requires OneToOne(ids, all) && s <= all
    ensures |Image(ids, s)| == |s|
    decreases |s|
  {
    hide Renamed;
    if x :| x in s {
      ImageCount(ids, all, s - {x});
      assert Image(ids, s) == Image(ids, s - {x}) + {Renamed(ids, x)};
      InImage(ids, all, s - {x}, x);
    } else {
      assert Image(ids, s) == {};
    }
  }

  lemma RenamedSize(ids: map<Str, Str>, all: set<Str>, s: seq<Str>)
    requires OneToOne(ids, all) && Elements(s) <= all
    ensures |Stable(RenamedSeq(ids, s))| == |Stable(s)|
  {
    hide Stable, Renamed, Image, RenamedSeq, Text.Increasing;
    StableSorts(s);
    StableSorts(RenamedSeq(ids, s));
    IncreasingCount(Stable(s));
    IncreasingCount(Stable(RenamedSeq(ids, s)));
    RenamedIn(ids, s);
    ImageCount(ids, all, Elements(s));
  }

  lemma KnownRenamed(ids: map<Str, Str>, all: set<Str>, s: seq<Str>, known: set<Str>, existing: set<Str>)
    requires Elements(s) <= all && (forall l :: l in all ==> (Renamed(ids, l) in existing <==> l in known))
    requires forall l :: l in all && Slug(l) ==> Slug(Renamed(ids, l))
    ensures AllKnown(s, known) ==> AllKnown(RenamedSeq(ids, s), existing) && AllSlugs(s)
    ensures AllKnown(RenamedSeq(ids, s), existing) && AllSlugs(s) ==> AllKnown(s, known)
  {
    hide Slug, Renamed;
    var r := RenamedSeq(ids, s);
    forall i | 0 <= i < |s| ensures r[i] == Renamed(ids, s[i]) && s[i] in all && s[i] in s {
      assert s[i] in Elements(s);
    }
  }

  lemma ApartRenamed(ids: map<Str, Str>, all: set<Str>, a: seq<Str>, b: seq<Str>)
    requires OneToOne(ids, all) && Elements(a) <= all && Elements(b) <= all
    ensures (forall l :: l in a ==> l !in b) <==> (forall x :: x in RenamedSeq(ids, a) ==> x !in RenamedSeq(ids, b))
  {
    hide Renamed;
    RenamedIn(ids, a);
    RenamedIn(ids, b);
    forall l | l in all ensures (l in a <==> Renamed(ids, l) in RenamedSeq(ids, a))
      ensures l in b <==> Renamed(ids, l) in RenamedSeq(ids, b)
    {
      InImage(ids, all, Elements(a), l);
      InImage(ids, all, Elements(b), l);
    }
    forall l | l in a ensures l in all {
      assert l in Elements(a);
    }
  }

  lemma RequestRenamed(ids: map<Str, Str>, all: set<Str>, s: seq<Str>, resolved: set<Str>)
    requires OneToOne(ids, all) && Elements(s) <= all && resolved <= all
    requires forall l :: l in all ==> Slug(Renamed(ids, l))
    ensures Requestable(s, resolved) <==> AllSlugs(s) && Requestable(RenamedSeq(ids, s), Image(ids, resolved))
  {
    hide Slug, Renamed;
    var r := RenamedSeq(ids, s);
    forall i | 0 <= i < |s| ensures s[i] in all && s[i] in s && r[i] == Renamed(ids, s[i]) {
      assert s[i] in Elements(s);
    }
    forall i | 0 <= i < |s| ensures r[i] in Image(ids, resolved) <==> s[i] in resolved {
      InImage(ids, all, resolved, s[i]);
    }
    assert forall i, j :: 0 <= i < j < |s| ==> (r[i] == r[j] <==> s[i] == s[j]);
  }

  ghost function PairImage(ids: map<Str, Str>, s: set<(Str, Str)>): set<(Str, Str)> {
    set x | x in s :: (Renamed(ids, x.0), x.1)
  }

  lemma {:induction false} PairImageCount(ids: map<Str, Str>, all: set<Str>, s: set<(Str, Str)>)
    requires OneToOne(ids, all) && forall x :: x in s ==> x.0 in all
    ensures |PairImage(ids, s)| == |s|
    decreases |s|
  {
    hide Renamed;
    if x :| x in s {
      PairImageCount(ids, all, s - {x});
      var y := (Renamed(ids, x.0), x.1);
      assert PairImage(ids, s) == PairImage(ids, s - {x}) + {y};
      assert x == (x.0, x.1) && y !in PairImage(ids, s - {x});
    } else {
      assert PairImage(ids, s) == {};
    }
  }

  lemma PairsMoved(ids: map<Str, Str>, domains: map<Str, seq<Str>>, renamed: map<Str, seq<Str>>)
    requires Image(ids, domains.Keys) == renamed.Keys && MovedTo(ids, domains, renamed)
    ensures Pairs(renamed) == PairImage(ids, Pairs(domains))
  {
    hide Renamed;
    forall l, d | (l, d) in Pairs(domains) ensures (Renamed(ids, l), d) in Pairs(renamed) {
      assert l in domains.Keys;
    }
    forall x | x in Pairs(renamed) ensures x in PairImage(ids, Pairs(domains)) {
      var l :| l in domains.Keys && Renamed(ids, l) == x.0;
      assert (l, x.1) in Pairs(domains) && x == (Renamed(ids, l), x.1);
    }
  }

  lemma PairsRenamed(ids: map<Str, Str>, all: set<Str>, domains: map<Str, seq<Str>>, renamed: map<Str, seq<Str>>)
    requires OneToOne(ids, all) && domains.Keys <= all && MovedTo(ids, domains, renamed)
    ensures |Pairs(renamed)| == |Pairs(domains)| && |renamed| == |domains|
  {
    hide Renamed, Image, PairImage;
    PairsMoved(ids, domains, renamed);
    PairImageCount(ids, all, Pairs(domains));
    ImageCount(ids, all, domains.Keys);
    assert |renamed.Keys| == |renamed| && |domains.Keys| == |domains|;
  }

  lemma OverridableMoved(ids: map<Str, Str>, all: set<Str>, domains: map<Str, seq<Str>>, renamed: map<Str, seq<Str>>,
      resolved: set<Str>, grammar: Grammar)
    requires OneToOne(ids, all) && domains.Keys <= all && resolved <= all && MovedTo(ids, domains, renamed)
    requires forall l :: l in all ==> Slug(Renamed(ids, l))
    ensures (forall l :: l in domains ==> Overridable(l, domains[l], resolved, grammar)) <==>
      (forall l :: l in domains ==> Slug(l)) &&
      (forall x :: x in renamed ==> Overridable(x, renamed[x], Image(ids, resolved), grammar))
  {
    hide Slug, Renamed, Grammatical;
    forall l | l in domains
      ensures Overridable(l, domains[l], resolved, grammar) <==>
        Slug(l) && Overridable(Renamed(ids, l), renamed[Renamed(ids, l)], Image(ids, resolved), grammar)
    {
      assert l in domains.Keys && l in all;
      InImage(ids, all, resolved, l);
    }
    forall x | x in renamed ensures exists l :: l in domains && Renamed(ids, l) == x {
      var l :| l in domains.Keys && Renamed(ids, l) == x;
    }
    assert forall l :: l in domains ==> l in domains.Keys && Renamed(ids, l) in renamed;
  }

  lemma CanonicalMoved(ids: map<Str, Str>, domains: map<Str, seq<Str>>, renamed: map<Str, seq<Str>>, grammar: Grammar)
    requires MovedTo(ids, domains, renamed)
    ensures MovedTo(ids, CanonicalDomains(domains, grammar), CanonicalDomains(renamed, grammar))
  {
    hide Renamed, CanonicalSet, Sorted;
    assert CanonicalDomains(domains, grammar).Keys == domains.Keys;
    assert CanonicalDomains(renamed, grammar).Keys == renamed.Keys;
    assert forall l :: l in domains ==> l in domains.Keys && Renamed(ids, l) in renamed.Keys;
  }

  lemma OverridesRenamed(ids: map<Str, Str>, all: set<Str>, domains: map<Str, seq<Str>>, resolved: set<Str>,
      grammar: Grammar)
    requires OneToOne(ids, all) && domains.Keys <= all && resolved <= all
    requires forall l :: l in all ==> Slug(Renamed(ids, l))
    ensures NormalDomains(domains, resolved, grammar).Some? <==>
      (forall l :: l in domains ==> Slug(l)) &&
      NormalDomains(RenamedDomains(ids, domains), Image(ids, resolved), grammar).Some?
  {
    hide Slug, Renamed, Pairs, CanonicalSet, Sorted, Overridable, RenamedDomains, Image, CanonicalDomains, MovedTo;
    DomainsRenamed(ids, all, domains);
    var renamed := RenamedDomains(ids, domains);
    CanonicalMoved(ids, domains, renamed, grammar);
    PairsRenamed(ids, all, domains, renamed);
    assert CanonicalDomains(domains, grammar).Keys == domains.Keys by {
      CanonicalKeys(domains, grammar);
    }
    PairsRenamed(ids, all, CanonicalDomains(domains, grammar), CanonicalDomains(renamed, grammar));
    OverridableMoved(ids, all, domains, renamed, resolved, grammar);
  }

  lemma CanonicalKeys(domains: map<Str, seq<Str>>, grammar: Grammar)
    ensures CanonicalDomains(domains, grammar).Keys == domains.Keys
  {
  }

  lemma InstalledNames(k: Catalog, d: Document, ids: Identities, p: Prospect)
    requires Import(k, d, ids, p)
    ensures forall l :: l in Portable(k, d) ==>
      (Renamed(ids.lists, l) in ExistingLists(k, Installed(d, ids)) <==> l in p.lists)
    ensures forall c :: c in PortableCategories(k, d) ==>
      (Renamed(ids.categories, c) in ExistingCategories(k, Installed(d, ids)) <==> c in p.categories)
    ensures forall c :: c in PortableCategories(k, d) && Slug(c) ==> Slug(Renamed(ids.categories, c))
  {
    hide Slug, IsCustom, HasList, HasCategory, Portable, PortableCategories, ExistingLists, ExistingCategories;
    InstalledLists(k, d, ids);
    Existing(k, Installed(d, ids));
    forall c | c in PortableCategories(k, d)
      ensures Renamed(ids.categories, c) in ExistingCategories(k, Installed(d, ids)) <==> c in p.categories
    {
      InstalledCategories(k, d, ids, c);
    }
  }

  /** Import validation and the installed library accept the same profiles. What a
      profile of the document names may be referred to, so validation accepts it before
      the import exactly when the library would accept it, renamed, afterwards, and its
      references are well-formed names. */
  lemma ImportAcceptsTheSame(k: Catalog, d: Document, ids: Identities, p: Prospect, c: Choice, grammar: Grammar)
    requires Import(k, d, ids, p) && Referable(k, d, c)
    ensures Validated(c, p, grammar).Some? <==>
      SluggedLists(c) && AllSlugs(c.categories) && Composed(k, Installed(d, ids), RenamedChoice(ids, c), grammar).Some?
  {
    hide Slug, IsCustom, Stable, Sorted, Normalized, NormalDomains, Installed, ResolvedSet, ForeseenSet, RenamedDomains,
      ExistingLists, ExistingCategories, Portable, PortableCategories, Renamed, RenamedSeq, Import, Foresees, AllKnown,
      AllSlugs;
    var v, r, all, cats := Installed(d, ids), RenamedChoice(ids, c), Portable(k, d), PortableCategories(k, d);
    assert Elements(c.lists) <= all && Elements(c.exclusions) <= all && Elements(c.priority) <= all;
    assert Elements(c.categories) <= cats;
    Faithful(k, d, ids, p);
    RenamedSize(ids.lists, all, c.lists);
    RenamedSize(ids.lists, all, c.exclusions);
    RenamedSize(ids.categories, cats, c.categories);
    InstalledNames(k, d, ids, p);
    KnownRenamed(ids.lists, all, c.lists, p.lists, ExistingLists(k, v));
    KnownRenamed(ids.lists, all, c.exclusions, p.lists, ExistingLists(k, v));
    KnownRenamed(ids.categories, cats, c.categories, p.categories, ExistingCategories(k, v));
    ApartRenamed(ids.lists, all, c.exclusions, c.lists);
    if Listed(c, p) || (SluggedLists(c) && AllSlugs(c.categories) && Composable(k, v, r)) {
      AllListed(c, p);
      assert NamesKnown(c, p);
      InstalledSet(k, d, ids, p, c);
      ForeseenExists(c, p);
      EmptyImage(ids.lists, ForeseenSet(c, p));
      OverridesRenamed(ids.lists, all, c.domains, ForeseenSet(c, p), grammar);
      RequestRenamed(ids.lists, all, c.priority, ForeseenSet(c, p));
      SortedElements(ForeseenSet(c, p));
      SortedElements(ResolvedSet(k, v, r));
      NormalizedWhen(c.priority, Sorted(ForeseenSet(c, p)));
      NormalizedWhen(r.priority, Sorted(ResolvedSet(k, v, r)));
    }
  }

  ghost predicate Listed(c: Choice, p: Prospect) {
    AllKnown(c.lists, p.lists) && AllKnown(c.categories, p.categories) && AllKnown(c.exclusions, p.lists)
  }

  lemma AllListed(c: Choice, p: Prospect)
    requires Listed(c, p)
    ensures NamesKnown(c, p)
  {
    hide Slug;
  }

  lemma EmptyImage(ids: map<Str, Str>, s: set<Str>)
    ensures Image(ids, s) == {} <==> s == {}
  {
    if l :| l in s {
      assert Renamed(ids, l) in Image(ids, s);
    }
  }

  lemma Faithful(k: Catalog, d: Document, ids: Identities, p: Prospect)
    requires Import(k, d, ids, p)
    ensures OneToOne(ids.lists, Portable(k, d)) && OneToOne(ids.categories, PortableCategories(k, d))
    ensures forall l :: l in Portable(k, d) ==> Slug(Renamed(ids.lists, l))
    ensures p.lists <= Portable(k, d)
  {
    hide Slug, IsCustom, PortableCategories;
    RenamingIsFaithful(k, d, ids);
    RenamedSlugs(k, d, ids);
  }

  /** Which profiles these are, in the words of the request: known names, within the
      bounds, nothing both named and excluded, and something left; with no order and no
      domains of its own, such a profile is accepted in the order of the names. */
  lemma PlainProfilesAreAccepted(c: Choice, p: Prospect, grammar: Grammar, l: Str)
    requires |Stable(c.lists)| <= 128 && |Stable(c.categories)| <= 128 && |Stable(c.exclusions)| <= 128
    requires forall x :: x in c.lists ==> Slug(x) && x in p.lists && x !in c.exclusions
    requires forall x :: x in c.exclusions ==> Slug(x) && x in p.lists
    requires forall x :: x in c.categories ==> Slug(x) && x in p.categories
    requires l in p.lists && l !in c.exclusions
    requires l in c.lists || exists cat :: cat in c.categories && (cat, l) in p.members && p.members[(cat, l)].Added?
    requires c.priority == [] && c.domains == map[]
    ensures Validated(c, p, grammar).Some?
    ensures var order := Validated(c, p, grammar).value.priority;
      Text.Increasing(order) && l in order && forall x :: x in order ==> x in p.lists && x !in c.exclusions
  {
    hide Slug, Stable, Sorted, Text.Increasing, ForeseenSet, Normalized, NormalDomains, Elements;
    ForeseenMembers(c, p, l, l);
    if l !in c.lists {
      var cat :| cat in c.categories && (cat, l) in p.members && p.members[(cat, l)].Added?;
      ForeseenMembers(c, p, l, cat);
    }
    var s := Sorted(ForeseenSet(c, p));
    SortedElements(ForeseenSet(c, p));
    NothingRequested(s, ForeseenSet(c, p), grammar);
    forall x ensures x in s <==> x in ForeseenSet(c, p) {
      Membership(s, x);
    }
  }

  lemma ForeseenMembers(c: Choice, p: Prospect, l: Str, cat: Str)
    ensures ForeseenSet(c, p) <= p.lists && forall x :: x in ForeseenSet(c, p) ==> x !in c.exclusions
    ensures l in p.lists && l !in c.exclusions && l in c.lists ==> l in ForeseenSet(c, p)
    ensures l !in c.exclusions && cat in c.categories && Holds(p, cat, l) ==> l in ForeseenSet(c, p)
  {
  }

  lemma Membership(s: seq<Str>, x: Str)
    ensures x in s <==> x in Elements(s)
  {
  }

  lemma NothingRequested(s: seq<Str>, resolved: set<Str>, grammar: Grammar)
    ensures Normalized([], s) == Some(s)
    ensures NormalDomains(map[], resolved, grammar).Some?
  {
    hide Slug;
    NoPairs();
    assert CanonicalDomains(map[], grammar) == map[];
    assert Elements(s) - Elements<Str>([]) == Elements(s);
    FilterKeeps(s, Elements(s));
    assert [] + s == s;
  }

  // -------------------------------------------------------------- what imported profiles name

  /** Everything of the installed library that a profile can name directly. */
  ghost function Library(k: Catalog, v: Overlay): set<Cell> {
    (set l | l in k.lists + v.customLists && HasList(k, v, l) :: ListCell(l)) +
    (set c | c in k.categories.Keys + v.customCategories && HasCategory(k, v, c) :: CategoryCell(c))
  }

  ghost function Stored(c: Choice, choices: Str, archived: bool): Profile {
    Profile(Elements(c.lists), Elements(c.categories), choices, archived)
  }

  /** An import owes its profiles nothing: each list and each category that a validated
      profile names is in the library that the same import installs. */
  lemma ImportedNamesExist(k: Catalog, d: Document, ids: Identities, p: Prospect, c: Choice, grammar: Grammar,
      choices: Str, archived: bool)
    requires Import(k, d, ids, p) && Validated(c, p, grammar).Some?
    ensures var checked := Validated(c, p, grammar).value;
      Names(Stored(RenamedChoice(ids, checked), choices, archived)) <= Library(k, Installed(d, ids))
  {
    hide Slug, Stable, Sorted, Normalized, IsCustom, NormalDomains, Installed, RemovedLists, RemovedCategories,
      ForeseenSet, Validated, RenamedDomains;
    var checked := Validated(c, p, grammar).value;
    var v, r := Installed(d, ids), RenamedChoice(ids, checked);
    ValidatedIsSound(c, p, grammar);
    RenamedIn(ids.lists, checked.lists);
    RenamedIn(ids.categories, checked.categories);
    InstalledLists(k, d, ids);
    forall x | x in Elements(r.lists) ensures HasList(k, v, x) {
      var l :| l in Elements(checked.lists) && Renamed(ids.lists, l) == x;
      assert l in p.lists;
    }
    forall x | x in Elements(r.categories) ensures HasCategory(k, v, x) {
      var cat :| cat in Elements(checked.categories) && Renamed(ids.categories, cat) == x;
      assert cat in p.categories;
      InstalledCategories(k, d, ids, cat);
    }
  }
}
