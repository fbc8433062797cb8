/** Dropping rules that a better-placed list makes redundant, without changing what
    is routed. internal/planner/priority.go, and the covering values of
    internal/planner/overlaps.go. */
module ListPriority {
  import opened Text
  import opened Net

  // A rule's kind and canonical value; the family of an address is its length.
  datatype Target = Exact(domain: Str) | Suffix(domain: Str) | Address(addr: Addr) | Network(prefix: Prefix)

  // `rest` is everything else a rule carries. An invalid rule is not routed.
  datatype Rule = Rule(target: Target, list: Str, rest: Str, valid: bool)

  datatype Destination = Name(domain: Str) | Host(addr: Addr)

  // -------------------------------------------------------------- coverage

  /** `tail` is what follows some dot of `name`. */
  predicate Tail(tail: Str, name: Str) {
    exists i :: 0 <= i < |name| && name[i] == DOT && name[i + 1..] == tail
  }

  predicate Covers(t: Target, d: Destination) {
    match t
    case Exact(n) => d == Name(n)
    case Suffix(n) => d.Name? && (d.domain == n || Tail(n, d.domain))
    case Address(a) => d == Host(a)
    case Network(p) => d.Host? && IsValid(p) && Contains(p, d.addr)
  }

  predicate WellFormed(t: Target) {
    match t
    case Exact(n) => n != []
    case Suffix(n) => n != []
    case Address(a) => |a| == 32 || |a| == 128
    case Network(p) => IsValid(p) && p == Masked(p)
  }

  /** Every name but the empty one, every address, and every network is a value. */
  lemma WellFormedValues(n: Str, a: Addr, p: Prefix)
    ensures n != [] ==> WellFormed(Exact(n)) && WellFormed(Suffix(n))
    ensures |a| == 32 || |a| == 128 ==> WellFormed(Address(a))
    ensures IsValid(p) ==> WellFormed(Network(Masked(p)))
  {
  }

  ghost predicate AllCovers(q: Target, t: Target) {
    forall d :: Covers(t, d) ==> Covers(q, d)
  }

  /** What `overlapParents` looks for. */
  predicate Parent(q: Target, t: Target) {
    match t
    case Exact(n) => q.Suffix? && (q.domain == n || Tail(q.domain, n))
    case Suffix(n) => q.Suffix? && Tail(q.domain, n)
    case Address(a) =>
      q.Network? && |q.prefix.addr| == |a| && IsValid(q.prefix) && q.prefix == Masked(Prefix(a, q.prefix.len))
    case Network(p) =>
      q.Network? && |q.prefix.addr| == |p.addr| && IsValid(q.prefix) && q.prefix.len < p.len &&
      q.prefix == Masked(Prefix(p.addr, q.prefix.len))
  }

  lemma TailOfTail(a: Str, b: Str, c: Str)
    requires Tail(a, b) && Tail(b, c)
    ensures Tail(a, c)
  {
    var i :| 0 <= i < |b| && b[i] == DOT && b[i + 1..] == a;
    var j :| 0 <= j < |c| && c[j] == DOT && c[j + 1..] == b;
    assert c[j + 1 + i] == b[i];
    assert c[j + 1 + i + 1..] == c[j + 1..][i + 1..];
  }

  lemma TailShorter(tail: Str, name: Str)
    requires Tail(tail, name)
    ensures |tail| < |name|
  {
  }

  lemma MaskedContains(p: Prefix, a: Addr)
    requires IsValid(p)
    ensures Contains(Masked(p), a) <==> Contains(p, a)
    ensures Contains(p, p.addr)
  {
    assert Masked(p).addr[..p.len] == p.addr[..p.len];
  }

  lemma ParentCovers(q: Target, t: Target)
    requires WellFormed(t) && Parent(q, t)
    ensures AllCovers(q, t) && q != t
  {
    forall d | Covers(t, d) ensures Covers(q, d) {
      match t
      case Exact(n) =>
      case Suffix(n) =>
        if d.domain != n {
          TailOfTail(q.domain, n, d.domain);
        }
      case Address(a) => MaskedContains(Prefix(a, q.prefix.len), a);
      case Network(p) =>
        MaskedContains(Prefix(p.addr, q.prefix.len), d.addr);
        assert d.addr[..q.prefix.len] == d.addr[..p.len][..q.prefix.len];
        assert p.addr[..q.prefix.len] == p.addr[..p.len][..q.prefix.len];
    }
    match t
    case Suffix(n) =>
      TailShorter(q.domain, n);
    case _ =>
  }

  /** The covering values are exactly the parents: a suffix or network, other than the
      value itself, that covers all of its destinations. */
  lemma ParentIffCovers(q: Target, t: Target)
    requires WellFormed(q) && WellFormed(t)
    ensures Parent(q, t) <==> q != t && (q.Suffix? || q.Network?) && AllCovers(q, t)
  {
    if Parent(q, t) {
      ParentCovers(q, t);
    }
    if q != t && (q.Suffix? || q.Network?) && AllCovers(q, t) {
      match t
      case Exact(n) => assert Covers(t, Name(n));
      case Suffix(n) => assert Covers(t, Name(n));
      case Address(a) =>
        assert Covers(t, Host(a));
        SameMask(q.prefix, a);
      case Network(p) => NetworkParent(q, p);
    }
  }

  lemma SameMask(q: Prefix, a: Addr)
    requires IsValid(q) && q == Masked(q) && Contains(q, a)
    ensures q == Masked(Prefix(a, q.len))
  {
    assert Masked(Prefix(a, q.len)).addr == q.addr;
  }

  lemma NetworkParent(q: Target, p: Prefix)
    requires WellFormed(q) && WellFormed(Network(p)) && q != Network(p) && (q.Suffix? || q.Network?)
    requires AllCovers(q, Network(p))
    ensures Parent(q, Network(p))
  {
    assert Covers(Network(p), Host(p.addr));
    SameMask(q.prefix, p.addr);
    var other := Outside(q.prefix, p);
    assert Covers(Network(p), Host(other)) ==> Covers(q, Host(other));
    assert Prefix(p.addr, p.len) == p;
  }

  /** A longer prefix leaves out some address of a shorter one. */
  lemma Outside(q: Prefix, p: Prefix) returns (a: Addr)
    requires IsValid(q) && IsValid(p) && |q.addr| == |p.addr|
    ensures q.len > p.len ==> Contains(p, a) && !Contains(q, a)
  {
    a := p.addr;
    if q.len > p.len {
      a := p.addr[p.len := !q.addr[p.len]];
      assert a[..p.len] == p.addr[..p.len];
      assert a[..q.len][p.len] != q.addr[..q.len][p.len];
    }
  }

  // -------------------------------------------------------------- priority

  function Position(priority: seq<Str>, l: Str): nat {
    if priority == [] then 0 else if priority[0] == l then 0 else 1 + Position(priority[1..], l)
  }

  predicate Better(priority: seq<Str>, a: Str, b: Str) {
    Position(priority, a) < Position(priority, b) || (Position(priority, a) == Position(priority, b) && Less(a, b))
  }

  lemma BetterIsAnOrder(priority: seq<Str>, a: Str, b: Str, c: Str)
    ensures !Better(priority, a, a)
    ensures Better(priority, a, b) && Better(priority, b, c) ==> Better(priority, a, c)
    ensures a == b || Better(priority, a, b) || Better(priority, b, a)
  {
    LessIrreflexive(a);
    LessTotal(a, b);
    if Less(a, b) && Less(b, c) {
      LessTransitive(a, b, c);
    }
  }

  ghost predicate ValidRules(rules: seq<Rule>) {
    forall r :: r in rules && r.valid ==> WellFormed(r.target)
  }

  ghost predicate Owned(rules: seq<Rule>, t: Target, l: Str) {
    exists r :: r in rules && r.valid && r.target == t && r.list == l
  }

  /** A better-placed list has the same value or one that covers it. */
  ghost predicate Beaten(rules: seq<Rule>, priority: seq<Str>, t: Target, l: Str) {
    exists r :: r in rules && r.valid && (r.target == t || Parent(r.target, t)) && Better(priority, r.list, l)
  }

  ghost predicate Drops(rules: seq<Rule>, priority: seq<Str>, r: Rule) {
    Owned(rules, r.target, r.list) && Beaten(rules, priority, r.target, r.list)
  }

  /** A value that covers another one is the value itself, a suffix, a network, or an
      address over its own network of full width. */
  lemma CoverersAreKnown(q: Target, t: Target)
    requires WellFormed(q) && WellFormed(t) && AllCovers(q, t) && q != t
    ensures q.Suffix? || q.Network? || (q.Address? && t == Network(Prefix(q.addr, |q.addr|)))
  {
    match t
    case Exact(n) => assert Covers(t, Name(n));
    case Suffix(n) => LongerName(n);
    case Address(a) => assert Covers(t, Host(a));
    case Network(p) => TwoHosts(q, p);
  }

  /** A suffix covers more than its own name. */
  lemma LongerName(n: Str)
    ensures Covers(Suffix(n), Name(n)) && Covers(Suffix(n), Name([DOT] + n)) && [DOT] + n != n
  {
    var longer := [DOT] + n;
    assert longer[0] == DOT && longer[0 + 1..] == n;
  }

  lemma TwoHosts(q: Target, p: Prefix)
    requires WellFormed(Network(p)) && AllCovers(q, Network(p))
    ensures !q.Exact? && (q.Address? ==> p == Prefix(q.addr, |q.addr|))
  {
    MaskedContains(p, p.addr);
    assert Covers(Network(p), Host(p.addr));
    if q.Address? {
      var other := Outside(Prefix(q.addr, |q.addr|), p);
      assert Covers(Network(p), Host(other)) ==> Covers(q, Host(other));
      assert Contains(Prefix(q.addr, |q.addr|), other) <==> other == q.addr;
    }
  }

  /** What priority promises, a rule goes when a better-placed rule wholly covers it,
      holds for every pair of values but one: an address does not count as covering
      its own network of full width. */
  lemma DropsWhatIsCovered(rules: seq<Rule>, priority: seq<Str>, r: Rule)
    requires ValidRules(rules) && r in rules && r.valid
    ensures Drops(rules, priority, r) <==>
      exists x :: x in rules && x.valid && Better(priority, x.list, r.list)
        && AllCovers(x.target, r.target) && !(x.target.Address? && r.target.Network?)
  {
    hide AllCovers, Better, WellFormed, Covers, Parent;
    forall x | x in rules && x.valid
      ensures x.target == r.target || Parent(x.target, r.target)
        <==> AllCovers(x.target, r.target) && !(x.target.Address? && r.target.Network?)
    {
      CoversItself(r.target);
      ParentIffCovers(x.target, r.target);
      if AllCovers(x.target, r.target) && x.target != r.target {
        CoverersAreKnown(x.target, r.target);
      }
    }
    assert Owned(rules, r.target, r.list);
  }

  lemma CoversItself(t: Target)
    ensures AllCovers(t, t)
  {
  }

  /** The input that shows it: a better-placed address covers a network of full width,
      and the network stays. The other way round the address goes. */
  lemma AddressSparesItsNetwork(a: Addr, priority: seq<Str>, first: Str, second: Str, rest: Str)
    requires |a| == 32 || |a| == 128
    requires Better(priority, first, second)
    ensures var address, network := Address(a), Network(Prefix(a, |a|));
      && WellFormed(network) && AllCovers(address, network) && AllCovers(network, address)
      && !Drops([Rule(address, first, rest, true), Rule(network, second, rest, true)], priority,
                Rule(network, second, rest, true))
      && Drops([Rule(network, first, rest, true), Rule(address, second, rest, true)], priority,
               Rule(address, second, rest, true))
  {
    hide Better, AllCovers;
    var address, network := Address(a), Network(Prefix(a, |a|));
    assert Masked(Prefix(a, |a|)) == Prefix(a, |a|);
    SingleHost(a);
    BetterIsAnOrder(priority, second, second, second);
    var rules := [Rule(network, first, rest, true), Rule(address, second, rest, true)];
    assert rules[0] in rules && rules[1] in rules;
  }

  lemma SingleHost(a: Addr)
    requires |a| == 32 || |a| == 128
    ensures AllCovers(Address(a), Network(Prefix(a, |a|))) && AllCovers(Network(Prefix(a, |a|)), Address(a))
  {
    forall d | Covers(Network(Prefix(a, |a|)), d) ensures d == Host(a) {
      assert d.addr[..|a|] == d.addr && a[..|a|] == a;
    }
  }

  ghost function Kept(all: seq<Rule>, priority: seq<Str>, rules: seq<Rule>): seq<Rule> {
    if rules == [] then []
    else
      var r := rules[|rules| - 1];
      Kept(all, priority, rules[..|rules| - 1]) + if Drops(all, priority, r) then [] else [r]
  }

  ghost function Dropped(all: seq<Rule>, priority: seq<Str>, rules: seq<Rule>): seq<Rule> {
    if rules == [] then []
    else
      var r := rules[|rules| - 1];
      Dropped(all, priority, rules[..|rules| - 1]) + if Drops(all, priority, r) then [r] else []
  }

  lemma {:induction false} KeptMembers(all: seq<Rule>, priority: seq<Str>, rules: seq<Rule>)
    ensures forall r :: r in Kept(all, priority, rules) <==> r in rules && !Drops(all, priority, r)
  {
    hide Drops;
    if rules != [] {
      var n := |rules| - 1;
      KeptMembers(all, priority, rules[..n]);
      assert rules == rules[..n] + [rules[n]];
    }
  }

  /** Kept and dropped rules together are exactly the rules there were. */
  lemma {:induction false} NothingIsLost(all: seq<Rule>, priority: seq<Str>, rules: seq<Rule>)
    ensures multiset(Kept(all, priority, rules)) + multiset(Dropped(all, priority, rules)) == multiset(rules)
  {
    hide Drops;
    if rules != [] {
      var n := |rules| - 1;
      NothingIsLost(all, priority, rules[..n]);
      assert rules == rules[..n] + [rules[n]];
    }
  }

  lemma {:induction false} NothingToDrop(all: seq<Rule>, priority: seq<Str>, rules: seq<Rule>)
    requires forall r :: r in rules ==> !Drops(all, priority, r)
    ensures Kept(all, priority, rules) == rules && Dropped(all, priority, rules) == []
  {
    hide Drops;
    if rules != [] {
      var n := |rules| - 1;
      NothingToDrop(all, priority, rules[..n]);
      assert rules == rules[..n] + [rules[n]];
      assert rules[n] in rules;
    }
  }

  /** The list that the priority names first is the better one; a list that it names
      beats one that it does not name. */
  lemma {:induction false} EarlierIsBetter(priority: seq<Str>, i: nat, b: Str)
    requires i < |priority| && b !in priority[..i + 1]
    ensures Better(priority, priority[i], b) && !Better(priority, b, priority[i])
  {
    PlacedAt(priority, i, priority[i]);
    PlacedAfter(priority, i + 1, b);
  }

  lemma {:induction false} PlacedAt(priority: seq<Str>, i: nat, l: Str)
    requires i < |priority| && priority[i] == l
    ensures Position(priority, l) <= i
  {
    if i > 0 {
      PlacedAt(priority[1..], i - 1, l);
    }
  }

  lemma {:induction false} PlacedAfter(priority: seq<Str>, n: nat, l: Str)
    requires n <= |priority| && l !in priority[..n]
    ensures n <= Position(priority, l) <= |priority|
    ensures l !in priority ==> Position(priority, l) == |priority|
  {
    if priority != [] {
      assert n > 0 ==> priority[..n][0] == priority[0];
      assert n > 0 ==> priority[1..][..n - 1] == priority[..n][1..];
      assert l !in priority ==> l !in priority[1..] && priority[0] != l;
      PlacedAfter(priority[1..], if n > 0 then n - 1 else 0, l);
    }
  }

  /** Lists that the priority does not name go by their name. */
  lemma UnnamedGoByName(priority: seq<Str>, a: Str, b: Str)
    requires a !in priority && b !in priority
    ensures Better(priority, a, b) <==> Less(a, b)
  {
    PlacedAfter(priority, 0, a);
    PlacedAfter(priority, 0, b);
  }

  /** `a` has a place in the priority, and `b` has none up to there. */
  ghost predicate NamedEarlier(priority: seq<Str>, a: Str, b: Str) {
    exists i :: 0 <= i < |priority| && priority[i] == a && b !in priority[..i + 1]
  }

  /** Who loses, in the words of the priority itself: a rule that a rule of a list named
      earlier wholly covers is dropped, and so is a rule covered by one whose list has
      the lesser name when the priority names neither. Nothing of one list is dropped
      for the same list. */
  lemma EarlierListWins(rules: seq<Rule>, priority: seq<Str>, x: Rule, r: Rule)
    requires ValidRules(rules) && x in rules && x.valid && r in rules && r.valid
    requires AllCovers(x.target, r.target) && !(x.target.Address? && r.target.Network?)
    ensures NamedEarlier(priority, x.list, r.list) ==>
      r in Dropped(rules, priority, rules) && r !in Kept(rules, priority, rules)
    ensures x.list !in priority && r.list !in priority && Less(x.list, r.list) ==>
      r in Dropped(rules, priority, rules) && r !in Kept(rules, priority, rules)
  {
    hide AllCovers, WellFormed, Better, Drops, Kept, Dropped;
    if i :| 0 <= i < |priority| && priority[i] == x.list && r.list !in priority[..i + 1] {
      EarlierIsBetter(priority, i, r.list);
      DropsWhatIsCovered(rules, priority, r);
      DroppedMembers(rules, priority, rules);
      KeptMembers(rules, priority, rules);
    } else if x.list !in priority && r.list !in priority && Less(x.list, r.list) {
      UnnamedGoByName(priority, x.list, r.list);
      DropsWhatIsCovered(rules, priority, r);
      DroppedMembers(rules, priority, rules);
      KeptMembers(rules, priority, rules);
    }
  }

  /** The list that the priority names first keeps every rule it has. */
  lemma FirstListKeepsAll(rules: seq<Rule>, priority: seq<Str>, r: Rule)
    requires r in rules && priority != [] && r.list == priority[0]
    ensures r in Kept(rules, priority, rules)
  {
    hide Drops, Kept, Parent;
    KeptMembers(rules, priority, rules);
    assert Position(priority, r.list) == 0;
    forall l ensures !Better(priority, l, r.list) {
      if Position(priority, l) == 0 {
        LessIrreflexive(l);
      }
    }
    NotBeaten(rules, priority, r);
  }

  lemma NotBeaten(rules: seq<Rule>, priority: seq<Str>, r: Rule)
    requires forall l :: !Better(priority, l, r.list)
    ensures !Drops(rules, priority, r)
  {
  }

  lemma {:induction false} DroppedMembers(all: seq<Rule>, priority: seq<Str>, rules: seq<Rule>)
    ensures forall r :: r in Dropped(all, priority, rules) <==> r in rules && Drops(all, priority, r)
  {
    hide Drops;
    if rules != [] {
      var n := |rules| - 1;
      DroppedMembers(all, priority, rules[..n]);
      assert rules == rules[..n] + [rules[n]];
    }
  }

  predicate CoveredBy(rules: seq<Rule>, d: Destination) {
    exists r :: r in rules && r.valid && Covers(r.target, d)
  }

  /** `l` is the best-placed list with a rule for `d`. */
  ghost predicate BestFor(rules: seq<Rule>, priority: seq<Str>, d: Destination, l: Str) {
    (exists r :: r in rules && r.valid && r.list == l && Covers(r.target, d)) &&
    (forall r :: r in rules && r.valid && Covers(r.target, d) ==> !Better(priority, r.list, l))
  }

  lemma {:induction false} BestExists(rules: seq<Rule>, priority: seq<Str>, d: Destination) returns (l: Str)
    requires CoveredBy(rules, d)
    ensures BestFor(rules, priority, d, l)
  {
    hide Covers, Better;
    var n := |rules| - 1;
    assert rules == rules[..n] + [rules[n]];
    var last := rules[n];
    if CoveredBy(rules[..n], d) {
      l := BestExists(rules[..n], priority, d);
      if last.valid && Covers(last.target, d) && Better(priority, last.list, l) {
        forall r | r in rules && r.valid && Covers(r.target, d) ensures !Better(priority, r.list, last.list) {
          BetterIsAnOrder(priority, r.list, last.list, l);
          BetterIsAnOrder(priority, last.list, l, l);
        }
        l := last.list;
      }
    } else {
      l := last.list;
      BetterIsAnOrder(priority, l, l, l);
    }
  }

  lemma BeatenBy(rules: seq<Rule>, priority: seq<Str>, d: Destination, t: Target, l: Str)
    requires WellFormed(t) && Covers(t, d)
    ensures Beaten(rules, priority, t, l) ==>
      exists x :: x in rules && x.valid && Covers(x.target, d) && Better(priority, x.list, l)
  {
    hide Parent, Covers, Better, WellFormed;
    if Beaten(rules, priority, t, l) {
      var x :| x in rules && x.valid && (x.target == t || Parent(x.target, t)) && Better(priority, x.list, l);
      if x.target != t {
        ParentCovers(x.target, t);
      }
      assert Covers(x.target, d);
    }
  }

  /** The best-placed list keeps every rule it has for a destination. */
  lemma BestKeepsItsRules(rules: seq<Rule>, priority: seq<Str>, d: Destination, l: Str, r: Rule)
    requires ValidRules(rules) && BestFor(rules, priority, d, l)
    requires r in rules && r.valid && r.list == l && Covers(r.target, d)
    ensures r in Kept(rules, priority, rules)
  {
    hide Parent, Covers, Better, Beaten;
    KeptMembers(rules, priority, rules);
    BeatenBy(rules, priority, d, r.target, r.list);
  }

  lemma BestIsUnique(rules: seq<Rule>, priority: seq<Str>, d: Destination, a: Str, b: Str)
    requires BestFor(rules, priority, d, a) && BestFor(rules, priority, d, b)
    ensures a == b
  {
    BetterIsAnOrder(priority, a, b, a);
  }

  lemma BestStays(rules: seq<Rule>, priority: seq<Str>, d: Destination, l: Str)
    requires ValidRules(rules) && BestFor(rules, priority, d, l)
    ensures CoveredBy(Kept(rules, priority, rules), d) && BestFor(Kept(rules, priority, rules), priority, d, l)
  {
    hide Covers, Better, Drops, Kept, WellFormed;
    KeptMembers(rules, priority, rules);
    var r :| r in rules && r.valid && r.list == l && Covers(r.target, d);
    BestKeepsItsRules(rules, priority, d, l, r);
  }

  /** Priority changes who owns a destination, never whether it is routed; and the
      list that comes first for a destination still comes first. */
  lemma RoutingIsPreserved(rules: seq<Rule>, priority: seq<Str>, d: Destination)
    requires ValidRules(rules)
    ensures CoveredBy(Kept(rules, priority, rules), d) <==> CoveredBy(rules, d)
    ensures forall l :: BestFor(rules, priority, d, l) <==> BestFor(Kept(rules, priority, rules), priority, d, l)
  {
    hide Covers, Better, Drops, Kept, WellFormed, BestFor, CoveredBy;
    var kept := Kept(rules, priority, rules);
    CoveredWhenKept(rules, priority, d);
    if CoveredBy(rules, d) {
      var best := BestExists(rules, priority, d);
      BestStays(rules, priority, d, best);
      forall l
        ensures BestFor(rules, priority, d, l) <==> l == best
        ensures BestFor(kept, priority, d, l) <==> l == best
      {
        if BestFor(rules, priority, d, l) {
          BestIsUnique(rules, priority, d, l, best);
        }
        if BestFor(kept, priority, d, l) {
          BestIsUnique(kept, priority, d, l, best);
        }
      }
    } else {
      forall l ensures !BestFor(rules, priority, d, l) && !BestFor(kept, priority, d, l) {
        BestCovers(rules, priority, d, l);
        BestCovers(kept, priority, d, l);
      }
    }
  }

  lemma BestCovers(rules: seq<Rule>, priority: seq<Str>, d: Destination, l: Str)
    ensures BestFor(rules, priority, d, l) ==> CoveredBy(rules, d)
  {
    hide Covers, Better;
  }

  lemma CoveredWhenKept(rules: seq<Rule>, priority: seq<Str>, d: Destination)
    ensures CoveredBy(Kept(rules, priority, rules), d) ==> CoveredBy(rules, d)
  {
    hide Covers, Kept, Drops;
    KeptMembers(rules, priority, rules);
  }

  lemma FewerDropFewer(a: seq<Rule>, b: seq<Rule>, priority: seq<Str>, r: Rule)
    requires forall x :: x in a ==> x in b
    ensures Drops(a, priority, r) ==> Drops(b, priority, r)
  {
    hide Parent, Better;
    if Drops(a, priority, r) {
      var x :| x in a && x.valid && x.target == r.target && x.list == r.list;
      assert Owned(b, r.target, r.list);
      var y :| y in a && y.valid && (y.target == r.target || Parent(y.target, r.target)) &&
        Better(priority, y.list, r.list);
      assert Beaten(b, priority, r.target, r.list);
    }
  }

  /** A second application drops nothing. */
  lemma PriorityIsIdempotent(rules: seq<Rule>, priority: seq<Str>)
    ensures var kept := Kept(rules, priority, rules);
      Kept(kept, priority, kept) == kept && Dropped(kept, priority, kept) == []
  {
    hide Drops, Kept, Dropped;
    var kept := Kept(rules, priority, rules);
    KeptMembers(rules, priority, rules);
    forall r | r in kept ensures !Drops(kept, priority, r) {
      FewerDropFewer(kept, rules, priority, r);
    }
    NothingToDrop(kept, priority, kept);
  }

  // -------------------------------------------------------------- the loops

  // The prefix lengths in use, per address length. The source also sorts them.
  datatype Widths = Widths(four: seq<int>, six: seq<int>) {
    function Of(bits: int): seq<int> {
      if bits == 32 then four else six
    }
  }

  /** What `overlapParents` returns: every parent, as far as its length is in use. */
  ghost predicate Finds(parents: seq<Target>, t: Target, w: Widths) {
    && (forall q :: q in parents ==> Parent(q, t))
    && (forall q :: Parent(q, t) && (q.Network? ==> q.prefix.len in w.Of(|q.prefix.addr|)) ==> q in parents)
  }

  method NextDot(name: Str, from: nat) returns (at: nat)
    requires from <= |name|
    ensures from <= at <= |name| && (at < |name| ==> name[at] == DOT)
    ensures forall i :: from <= i < at ==> name[i] != DOT
  {
    at := from;
    while at < |name| && name[at] != DOT
      invariant from <= at <= |name|
      invariant forall i :: from <= i < at ==> name[i] != DOT
    {
      at := at + 1;
    }
  }

  predicate TailBefore(tail: Str, name: Str, n: nat) {
    exists i :: 0 <= i < n && i < |name| && name[i] == DOT && name[i + 1..] == tail
  }

  method DomainParents(name: Str, exact: bool) returns (parents: seq<Target>)
    ensures forall q :: q in parents <==> q.Suffix? && ((exact && q.domain == name) || Tail(q.domain, name))
  {
    parents := if exact then [Suffix(name)] else [];
    var start := 0;
    while start <= |name|
      invariant start <= |name| + 1
      invariant forall q :: q in parents <==>
        q.Suffix? && ((exact && q.domain == name) || TailBefore(q.domain, name, start))
      decreases |name| + 1 - start
    {
      var dot := NextDot(name, start);
      if dot == |name| {
        break;
      }
      parents := parents + [Suffix(name[dot + 1..])];
      start := dot + 1;
    }
  }

  predicate NetworkOver(q: Target, addr: Addr, maximum: int, widths: seq<int>)
    requires |addr| == 32 || |addr| == 128
  {
    q.Network? && |q.prefix.addr| == |addr| && 0 <= q.prefix.len <= maximum && q.prefix.len <= |addr| &&
    q.prefix.len in widths && q.prefix == Masked(Prefix(addr, q.prefix.len))
  }

  lemma NetworkOverMore(q: Target, addr: Addr, maximum: int, widths: seq<int>, i: nat)
    requires (|addr| == 32 || |addr| == 128) && maximum <= |addr| && i < |widths|
    ensures NetworkOver(q, addr, maximum, widths[..i + 1]) <==>
      NetworkOver(q, addr, maximum, widths[..i]) ||
      (0 <= widths[i] <= maximum && q == Network(Masked(Prefix(addr, widths[i]))))
  {
    assert widths[..i + 1] == widths[..i] + [widths[i]];
  }

  method NetworkParents(addr: Addr, maximum: int, widths: seq<int>) returns (parents: seq<Target>)
    requires (|addr| == 32 || |addr| == 128) && maximum <= |addr|
    ensures forall q :: q in parents <==> NetworkOver(q, addr, maximum, widths)
  {
    hide Masked, NetworkOver;
    parents := [];
    NoNetworks(addr, maximum);
    assert widths[..0] == [];
    for i := 0 to |widths|
      invariant forall q :: q in parents <==> NetworkOver(q, addr, maximum, widths[..i])
    {
      forall q {
        NetworkOverMore(q, addr, maximum, widths, i);
      }
      if 0 <= widths[i] <= maximum {
        ghost var was := parents;
        parents := parents + [Network(Masked(Prefix(addr, widths[i])))];
        assert forall q :: q in parents <==> q in was || q == Network(Masked(Prefix(addr, widths[i])));
      }
    }
    assert widths[..|widths|] == widths;
  }

  lemma NoNetworks(addr: Addr, maximum: int)
    requires |addr| == 32 || |addr| == 128
    ensures forall q :: !NetworkOver(q, addr, maximum, [])
  {
  }

  /** `overlapParents`. */
  method OverlapParents(t: Target, w: Widths) returns (parents: seq<Target>)
    requires WellFormed(t)
    ensures Finds(parents, t, w)
  {
    hide Tail, Masked;
    match t
    case Exact(n) => parents := DomainParents(n, true);
    case Suffix(n) => parents := DomainParents(n, false);
    case Address(a) => parents := NetworkParents(a, |a|, w.Of(|a|));
    case Network(p) => parents := NetworkParents(p.addr, p.len - 1, w.Of(|p.addr|));
  }

  predicate Owns(groups: map<Target, seq<Str>>, t: Target, l: Str) {
    t in groups && l in groups[t]
  }

  /** The rules grouped by value, with the lists that own each. */
  ghost predicate Grouped(rules: seq<Rule>, groups: map<Target, seq<Str>>, w: Widths) {
    && (forall t, l :: Owns(groups, t, l) <==> Owned(rules, t, l))
    && (forall t :: t in groups ==> groups[t] != [])
    && (forall t :: t in groups && t.Network? ==> t.prefix.len in w.Of(|t.prefix.addr|))
  }

  lemma OwnedStep(rules: seq<Rule>, i: nat, t: Target, l: Str)
    requires i < |rules|
    ensures Owned(rules[..i + 1], t, l) <==>
      Owned(rules[..i], t, l) || (rules[i].valid && rules[i].target == t && rules[i].list == l)
  {
    assert rules[..i + 1] == rules[..i] + [rules[i]];
    if x :| x in rules[..i] && x.valid && x.target == t && x.list == l {
      assert x in rules[..i + 1];
    }
  }

  function WithOwner(groups: map<Target, seq<Str>>, r: Rule): map<Target, seq<Str>> {
    if r.valid then groups[r.target := (if r.target in groups then groups[r.target] else []) + [r.list]] else groups
  }

  function WithWidth(w: Widths, r: Rule): Widths {
    if !r.valid || !r.target.Network? then w
    else if |r.target.prefix.addr| == 32 then w.(four := w.four + [r.target.prefix.len])
    else w.(six := w.six + [r.target.prefix.len])
  }

  lemma GroupedStep(rules: seq<Rule>, i: nat, groups: map<Target, seq<Str>>, w: Widths)
    requires i < |rules| && Grouped(rules[..i], groups, w)
    ensures Grouped(rules[..i + 1], WithOwner(groups, rules[i]), WithWidth(w, rules[i]))
  {
    hide Owned;
    var r, next := rules[i], WithOwner(groups, rules[i]);
    forall t, l ensures Owns(next, t, l) <==> Owned(rules[..i + 1], t, l) {
      OwnedStep(rules, i, t, l);
    }
    forall t | t in next ensures next[t] != [] && (t.Network? ==> t.prefix.len in WithWidth(w, r).Of(|t.prefix.addr|)) {
      if t in groups {
        assert t.Network? ==> t.prefix.len in w.Of(|t.prefix.addr|);
      } else {
        assert r.valid && t == r.target;
      }
    }
  }

  method GroupRules(rules: seq<Rule>) returns (groups: map<Target, seq<Str>>, w: Widths)
    ensures Grouped(rules, groups, w)
  {
    hide Grouped;
    groups, w := map[], Widths([], []);
    NothingGrouped(w);
    assert rules[..0] == [];
    for i := 0 to |rules|
      invariant Grouped(rules[..i], groups, w)
    {
      GroupedStep(rules, i, groups, w);
      var r := rules[i];
      if !r.valid {
        assert WithOwner(groups, r) == groups && WithWidth(w, r) == w;
        continue;
      }
      groups := groups[r.target := (if r.target in groups then groups[r.target] else []) + [r.list]];
      if r.target.Network? {
        if |r.target.prefix.addr| == 32 {
          w := w.(four := w.four + [r.target.prefix.len]);
        } else {
          w := w.(six := w.six + [r.target.prefix.len]);
        }
      }
    }
    assert rules[..|rules|] == rules;
  }

  lemma NothingGrouped(w: Widths)
    ensures Grouped([], map[], w)
  {
  }

  // -------------------------------------------------------------- what is dropped

  function Place(rank: map<Str, nat>, count: nat, l: Str): nat {
    if l in rank then rank[l] else count
  }

  lemma {:induction false} PositionOfMore(priority: seq<Str>, x: Str, l: Str)
    ensures Position(priority + [x], l) ==
      if Position(priority, l) < |priority| || l == x then Position(priority, l) else |priority| + 1
    ensures Position(priority, l) <= |priority|
  {
    var more := priority + [x];
    if priority != [] {
      assert more[1..] == priority[1..] + [x];
      PositionOfMore(priority[1..], x, l);
    }
  }

  /** The first place of each list counts. */
  method RankLists(priority: seq<Str>) returns (rank: map<Str, nat>)
    ensures forall l :: Place(rank, |priority|, l) == Position(priority, l)
  {
    rank := map[];
    for i := 0 to |priority|
      invariant forall l :: l in rank <==> Position(priority[..i], l) < i
      invariant forall l :: Place(rank, i, l) == Position(priority[..i], l)
    {
      assert priority[..i + 1] == priority[..i] + [priority[i]];
      forall l {
        PositionOfMore(priority[..i], priority[i], l);
      }
      if priority[i] !in rank {
        rank := rank[priority[i] := i];
      }
    }
    assert priority[..|priority|] == priority;
  }

  predicate BetterPlaced(rank: map<Str, nat>, count: nat, a: Str, b: Str) {
    Place(rank, count, a) < Place(rank, count, b) || (Place(rank, count, a) == Place(rank, count, b) && Less(a, b))
  }

  ghost predicate SomeBetter(groups: map<Target, seq<Str>>, priority: seq<Str>, q: Target, l: Str) {
    exists o :: Owns(groups, q, o) && Better(priority, o, l)
  }

  ghost predicate BeatenAmong(groups: map<Target, seq<Str>>, priority: seq<Str>, t: Target, parents: seq<Target>,
      l: Str) {
    SomeBetter(groups, priority, t, l) || exists q :: q in parents && SomeBetter(groups, priority, q, l)
  }

  lemma AmongMore(groups: map<Target, seq<Str>>, priority: seq<Str>, t: Target, parents: seq<Target>, i: nat, l: Str)
    requires i < |parents|
    ensures BeatenAmong(groups, priority, t, parents[..i + 1], l) <==>
      BeatenAmong(groups, priority, t, parents[..i], l) || SomeBetter(groups, priority, parents[i], l)
  {
    hide SomeBetter;
    assert parents[..i + 1] == parents[..i] + [parents[i]];
  }

  lemma BeatenMeans(rules: seq<Rule>, groups: map<Target, seq<Str>>, w: Widths, priority: seq<Str>, t: Target,
      parents: seq<Target>, l: Str)
    requires Grouped(rules, groups, w) && Finds(parents, t, w)
    ensures Beaten(rules, priority, t, l) <==> BeatenAmong(groups, priority, t, parents, l)
  {
    hide Parent, Better;
    if Beaten(rules, priority, t, l) {
      var r :| r in rules && r.valid && (r.target == t || Parent(r.target, t)) && Better(priority, r.list, l);
      assert Owned(rules, r.target, r.list);
      assert Owns(groups, r.target, r.list);
      assert SomeBetter(groups, priority, r.target, l);
    }
    if q :| (q == t || q in parents) && SomeBetter(groups, priority, q, l) {
      var o :| Owns(groups, q, o) && Better(priority, o, l);
      assert Owned(rules, q, o);
    }
  }

  /** The best of several owners. */
  method Winner(owners: seq<Str>, rank: map<Str, nat>, count: nat, ghost priority: seq<Str>) returns (winner: Str)
    requires count == |priority| && forall l :: Place(rank, count, l) == Position(priority, l)
    requires owners != []
    ensures winner in owners && forall o :: o in owners ==> !Better(priority, o, winner)
  {
    hide Position, Less;
    winner := owners[0];
    BetterIsAnOrder(priority, winner, winner, winner);
    for i := 1 to |owners|
      invariant winner in owners
      invariant forall k :: 0 <= k < i ==> !Better(priority, owners[k], winner)
    {
      assert BetterPlaced(rank, count, owners[i], winner) == Better(priority, owners[i], winner);
      if BetterPlaced(rank, count, owners[i], winner) {
        forall k | 0 <= k <= i ensures !Better(priority, owners[k], owners[i]) {
          BetterIsAnOrder(priority, owners[k], owners[i], winner);
        }
        winner := owners[i];
      }
    }
  }

  /** Of several owners of one value all but the best lose it. */
  method Losers(owners: seq<Str>, rank: map<Str, nat>, count: nat, ghost priority: seq<Str>) returns (lost: set<Str>)
    requires count == |priority| && forall l :: Place(rank, count, l) == Position(priority, l)
    requires owners != []
    ensures forall l :: l in lost <==> l in owners && exists o :: o in owners && Better(priority, o, l)
  {
    hide Position, Better;
    var winner := Winner(owners, rank, count, priority);
    lost := {};
    for i := 0 to |owners|
      invariant lost == set k | 0 <= k < i && owners[k] != winner :: owners[k]
    {
      if owners[i] != winner {
        lost := lost + {owners[i]};
      }
    }
    forall l | l in owners ensures l != winner <==> exists o :: o in owners && Better(priority, o, l) {
      BetterIsAnOrder(priority, winner, l, winner);
      BetterIsAnOrder(priority, l, winner, l);
    }
  }

  /** Owners that a covering value's owner beats. */
  method Covered(owners: seq<Str>, covering: seq<Str>, rank: map<Str, nat>, count: nat, ghost priority: seq<Str>)
    returns (lost: set<Str>)
    requires count == |priority| && forall l :: Place(rank, count, l) == Position(priority, l)
    ensures forall l :: l in lost <==> l in owners && exists o :: o in covering && Better(priority, o, l)
  {
    hide Position, Less;
    lost := {};
    for i := 0 to |owners|
      invariant forall l :: l in lost <==> l in owners[..i] && exists o :: o in covering && Better(priority, o, l)
    {
      var beaten := false;
      assert owners[..i + 1] == owners[..i] + [owners[i]];
      for j := 0 to |covering|
        invariant beaten <==> exists o :: o in covering[..j] && Better(priority, o, owners[i])
      {
        assert covering[..j + 1] == covering[..j] + [covering[j]];
        assert BetterPlaced(rank, count, covering[j], owners[i]) == Better(priority, covering[j], owners[i]);
        if covering[j] != owners[i] && BetterPlaced(rank, count, covering[j], owners[i]) {
          beaten := true;
        }
        BetterIsAnOrder(priority, owners[i], owners[i], owners[i]);
      }
      assert covering[..|covering|] == covering;
      if beaten {
        lost := lost + {owners[i]};
      }
    }
    assert owners[..|owners|] == owners;
  }

  /** Who loses one value: to a better owner of it, or of a value that covers it. */
  method LostOwners(t: Target, groups: map<Target, seq<Str>>, w: Widths, rank: map<Str, nat>, count: nat,
      ghost rules: seq<Rule>, ghost priority: seq<Str>)
    returns (lost: set<Str>)
    requires Grouped(rules, groups, w) && t in groups && WellFormed(t)
    requires count == |priority| && forall l :: Place(rank, count, l) == Position(priority, l)
    ensures forall l :: l in lost <==> Owned(rules, t, l) && Beaten(rules, priority, t, l)
  {
    hide Position, Better, Place, Beaten, Owned, Finds, WellFormed, SomeBetter, BeatenAmong, Grouped;
    var owners := groups[t];
    assert owners != [] by {
      GroupHasOwners(rules, groups, w, t);
    }
    lost := Losers(owners, rank, count, priority);
    SomeBetterOf(groups, priority, t);
    var parents := OverlapParents(t, w);
    NoParents(groups, priority, t);
    assert parents[..0] == [];
    for i := 0 to |parents|
      invariant forall l :: l in lost <==> l in owners && BeatenAmong(groups, priority, t, parents[..i], l)
    {
      SomeBetterOf(groups, priority, parents[i]);
      forall l {
        AmongMore(groups, priority, t, parents, i, l);
      }
      if parents[i] in groups {
        var covered := Covered(owners, groups[parents[i]], rank, count, priority);
        lost := lost + covered;
      }
    }
    assert parents[..|parents|] == parents;
    forall l ensures l in lost <==> Owned(rules, t, l) && Beaten(rules, priority, t, l) {
      BeatenMeans(rules, groups, w, priority, t, parents, l);
      OwnersGrouped(rules, groups, w, t, l);
    }
  }

  lemma NoParents(groups: map<Target, seq<Str>>, priority: seq<Str>, t: Target)
    ensures forall l :: BeatenAmong(groups, priority, t, [], l) <==> SomeBetter(groups, priority, t, l)
  {
    hide SomeBetter;
  }

  lemma GroupHasOwners(rules: seq<Rule>, groups: map<Target, seq<Str>>, w: Widths, t: Target)
    requires Grouped(rules, groups, w) && t in groups
    ensures groups[t] != []
  {
  }

  lemma SomeBetterOf(groups: map<Target, seq<Str>>, priority: seq<Str>, q: Target)
    ensures forall l :: SomeBetter(groups, priority, q, l) <==>
      q in groups && exists o :: o in groups[q] && Better(priority, o, l)
  {
    hide Better;
    forall l | q in groups && exists o :: o in groups[q] && Better(priority, o, l)
      ensures SomeBetter(groups, priority, q, l)
    {
      var o :| o in groups[q] && Better(priority, o, l);
      assert Owns(groups, q, o);
    }
  }

  /** `drop`: the values and owners that go. */
  method DropSet(rules: seq<Rule>, priority: seq<Str>) returns (drop: set<(Target, Str)>)
    requires ValidRules(rules)
    ensures forall r: Rule :: (r.target, r.list) in drop <==> Drops(rules, priority, r)
  {
    hide Position, Better, Place, Beaten, Owned, Grouped, WellFormed;
    var rank := RankLists(priority);
    var groups, w := GroupRules(rules);
    drop := {};
    var rest := groups.Keys;
    while rest != {}
      invariant rest <= groups.Keys
      invariant forall t, l :: (t, l) in drop <==>
        t in groups && t !in rest && Owned(rules, t, l) && Beaten(rules, priority, t, l)
      decreases |rest|
    {
      var t :| t in rest;
      GroupIsValid(rules, groups, w, t);
      var lost := LostOwners(t, groups, w, rank, |priority|, rules, priority);
      ghost var was := drop;
      drop := drop + set l | l in lost :: (t, l);
      forall x, l ensures (x, l) in drop <==> (x, l) in was || (x == t && l in lost) {
      }
      rest := rest - {t};
    }
    forall t, l ensures Owned(rules, t, l) ==> t in groups {
      OwnersGrouped(rules, groups, w, t, l);
    }
  }

  lemma OwnersGrouped(rules: seq<Rule>, groups: map<Target, seq<Str>>, w: Widths, t: Target, l: Str)
    requires Grouped(rules, groups, w)
    ensures Owned(rules, t, l) <==> t in groups && l in groups[t]
  {
    assert Owns(groups, t, l) <==> Owned(rules, t, l);
  }

  lemma GroupIsValid(rules: seq<Rule>, groups: map<Target, seq<Str>>, w: Widths, t: Target)
    requires Grouped(rules, groups, w) && ValidRules(rules) && t in groups
    ensures WellFormed(t)
  {
    assert Owns(groups, t, groups[t][0]);
    assert Owned(rules, t, groups[t][0]);
  }

  class Plan {
    var rules: seq<Rule>
    // Candidates that are not routed, newest last.
    var excluded: seq<Rule>

    constructor (rules: seq<Rule>, excluded: seq<Rule>)
      ensures this.rules == rules && this.excluded == excluded
    {
      this.rules, this.excluded := rules, excluded;
    }

    /** `ApplyListPriority`, in place: what stays keeps its order, and what goes is
        recorded as excluded. */
    method ApplyListPriority(priority: seq<Str>)
      requires ValidRules(rules)
      modifies this
      ensures rules == Kept(old(rules), priority, old(rules))
      ensures excluded == old(excluded) + Dropped(old(rules), priority, old(rules))
    {
      hide Drops;
      var drop := DropSet(rules, priority);
      if drop == {} {
        NothingToDrop(rules, priority, rules);
        assert excluded + [] == excluded;
        return;
      }
      ghost var all := rules;
      var kept: seq<Rule> := [];
      var todo := rules;
      for i := 0 to |todo|
        invariant rules == all == todo && kept == Kept(all, priority, todo[..i])
        invariant excluded == old(excluded) + Dropped(all, priority, todo[..i])
      {
        assert todo[..i + 1][..i] == todo[..i];
        if (todo[i].target, todo[i].list) !in drop {
          kept := kept + [todo[i]];
          continue;
        }
        excluded := excluded + [todo[i]];
      }
      assert todo[..|todo|] == todo;
      rules := kept;
    }
  }
}
