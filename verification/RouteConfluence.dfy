/** Any number of outputs on one surface: the order in which they are sent or removed
    does not matter, as long as every claim names its lists. */
module RouteConfluence {
  import opened Text
  import opened Net
  import opened RouteLabels
  import opened RouteLedger
  import opened Sorting

  ghost predicate Within(claims: Claims, pool: set<Str>) {
    forall k :: k in claims ==> claims[k] <= pool
  }

  /** A valid ledger with provenance on every claim, from a pool of labels that one
      slice can hold. */
  ghost predicate Ready(w: World, pool: set<Str>) {
    ValidBook(w.book) && Labelled(w.book.claims) && Within(w.book.claims, pool) && |pool| <= MAX_INT
  }

  function Asked(s: Step): Desired {
    if s.Deliver? then s.desired else map[]
  }

  ghost predicate Sound(s: Step, pool: set<Str>) {
    ValidDesired(Asked(s)) && forall p :: p in Asked(s) ==> Asked(s)[p] != {} && Asked(s)[p] <= pool
  }

  ghost predicate AllSound(steps: seq<Step>, pool: set<Str>) {
    forall i :: 0 <= i < |steps| ==> Sound(steps[i], pool)
  }

  ghost predicate DistinctOutputs(steps: seq<Step>) {
    forall i, j :: 0 <= i < j < |steps| ==> steps[i].output != steps[j].output
  }

  lemma WithinIsCountable(claims: Claims, pool: set<Str>)
    requires Within(claims, pool) && |pool| <= MAX_INT
    ensures Countable(claims)
  {
    forall p ensures |LabelsOn(claims, p)| <= MAX_INT {
      assert LabelsOn(claims, p) <= pool;
      SubsetSize(LabelsOn(claims, p), pool);
    }
  }

  lemma ClaimsStayWithin(claims: Claims, o: Str, desired: Desired, pool: set<Str>)
    requires Within(claims, pool) && forall p :: p in desired ==> desired[p] <= pool
    ensures Within(NextClaims(claims, o, desired), pool)
  {
    NextClaimsOf(claims, o, desired);
    var next := NextClaims(claims, o, desired);
    forall k | k in next ensures next[k] <= pool {
      assert k == (k.0, k.1);
    }
  }

  lemma SendStaysReady(w: World, o: Str, desired: Desired, pool: set<Str>)
    requires Ready(w, pool) && ValidDesired(desired)
    requires forall p :: p in desired ==> desired[p] != {} && desired[p] <= pool
    ensures Ready(Send(w, o, desired), pool) && Countable(NextClaims(w.book.claims, o, desired))
  {
    hide ValidBook, Labelled, Within, NextClaims, Countable, ValidDesired, LabelsValid;
    ClaimsStayWithin(w.book.claims, o, desired, pool);
    WithinIsCountable(NextClaims(w.book.claims, o, desired), pool);
    SendKeepsValid(w.book, o, desired, w.table);
    assert LabelsValid(w.book.claims) by {
      BookLabelsValid(w.book);
    }
    LabelsAfter(w.book.claims, o, desired);
  }

  lemma StepStaysReady(w: World, s: Step, pool: set<Str>)
    requires Ready(w, pool) && Sound(s, pool)
    ensures Ready(Take(w, s), pool)
  {
    hide Ready, Send;
    SendStaysReady(w, s.output, Asked(s), pool);
  }

  /** Whether an output owns anything does not depend on what others do. */
  lemma OwnershipApart(w: World, o: Str, desired: Desired, q: Str)
    requires q != o
    ensures Owns(Send(w, o, desired).book, q) <==> Owns(w.book, q)
  {
    hide NextClaims;
    NextClaimsOf(w.book.claims, o, desired);
  }

  lemma StepsCommute(w: World, x: Step, y: Step, pool: set<Str>)
    requires Ready(w, pool) && Sound(x, pool) && Sound(y, pool) && x.output != y.output
    ensures Take(Take(w, x), y) == Take(Take(w, y), x)
  {
    hide ValidBook, Labelled, Within, NextClaims, Countable, ValidDesired, Send, Owns;
    SendStaysReady(w, x.output, Asked(x), pool);
    SendStaysReady(w, y.output, Asked(y), pool);
    LabelledSendsCommute(w, x.output, Asked(x), y.output, Asked(y));
    OwnershipApart(w, x.output, Asked(x), y.output);
    OwnershipApart(w, y.output, Asked(y), x.output);
  }

  /** A step can be taken first instead of last. */
  lemma {:induction false} TakenFirst(w: World, front: seq<Step>, x: Step, pool: set<Str>)
    requires Ready(w, pool) && AllSound(front, pool) && Sound(x, pool)
    requires forall i :: 0 <= i < |front| ==> front[i].output != x.output
    ensures Run(w, front + [x]) == Run(Take(w, x), front)
    decreases |front|
  {
    hide Ready, Sound, Take;
    var all := front + [x];
    if front == [] {
      assert all[0] == x && all[1..] == [];
    } else {
      var y := front[0];
      assert all[0] == y && all[1..] == front[1..] + [x];
      StepStaysReady(w, y, pool);
      TakenFirst(Take(w, y), front[1..], x, pool);
      StepsCommute(w, y, x, pool);
    }
  }

  lemma {:induction false} RunConcat(w: World, a: seq<Step>, b: seq<Step>)
    ensures Run(w, a + b) == Run(Run(w, a), b)
    decreases |a|
  {
    hide Take;
    if a == [] {
      assert a + b == b;
    } else {
      assert (a + b)[0] == a[0] && (a + b)[1..] == a[1..] + b;
      RunConcat(Take(w, a[0]), a[1..], b);
    }
  }

  lemma BroughtForward(w: World, front: seq<Step>, x: Step, back: seq<Step>, pool: set<Str>)
    requires Ready(w, pool) && AllSound(front, pool) && Sound(x, pool)
    requires forall i :: 0 <= i < |front| ==> front[i].output != x.output
    ensures Run(w, front + [x] + back) == Run(Take(w, x), front + back)
  {
    hide Ready, Sound, Take, Run;
    RunConcat(w, front + [x], back);
    TakenFirst(w, front, x, pool);
    RunConcat(Take(w, x), front, back);
  }

  lemma Rest(b: seq<Step>, i: nat, pool: set<Str>)
    requires i < |b| && DistinctOutputs(b) && AllSound(b, pool)
    ensures var rest := b[..i] + b[i + 1..]; DistinctOutputs(rest) && AllSound(rest, pool) && AllSound(b[..i], pool)
  {
    hide Sound;
    var rest := b[..i] + b[i + 1..];
    assert forall j :: 0 <= j < |rest| ==> rest[j] == b[if j < i then j else j + 1];
  }

  /** Where a step is in a sequence, and what is left without it. */
  lemma Without(b: seq<Step>, x: Step, pool: set<Str>) returns (front: seq<Step>, back: seq<Step>)
    requires x in multiset(b) && DistinctOutputs(b) && AllSound(b, pool)
    ensures b == front + [x] + back && multiset(b) == multiset{x} + multiset(front + back)
    ensures forall i :: 0 <= i < |front| ==> front[i].output != x.output
    ensures DistinctOutputs(front + back) && AllSound(front + back, pool) && AllSound(front, pool)
  {
    hide AllSound;
    var i :| 0 <= i < |b| && b[i] == x;
    front, back := b[..i], b[i + 1..];
    Rest(b, i, pool);
    assert b == b[..i] + [x] + b[i + 1..];
  }

  lemma Tail(a: seq<Step>, pool: set<Str>)
    requires a != [] && DistinctOutputs(a) && AllSound(a, pool)
    ensures multiset(a) == multiset{a[0]} + multiset(a[1..])
    ensures DistinctOutputs(a[1..]) && AllSound(a[1..], pool) && Sound(a[0], pool)
  {
    hide Sound;
    assert a == [a[0]] + a[1..];
  }

  /** Sends and removals of different outputs, in any order, end in the same ledger
      and the same router table. */
  lemma {:induction false} OrderDoesNotMatter(w: World, a: seq<Step>, b: seq<Step>, pool: set<Str>)
    requires Ready(w, pool) && AllSound(a, pool) && AllSound(b, pool)
    requires DistinctOutputs(a) && DistinctOutputs(b) && multiset(a) == multiset(b)
    ensures Run(w, a) == Run(w, b)
    decreases |a|
  {
    hide Ready, Sound, Take, AllSound, DistinctOutputs;
    assert |multiset(a)| == |a| && |multiset(b)| == |b|;
    if a != [] {
      var x := a[0];
      Tail(a, pool);
      var front, back := Without(b, x, pool);
      Cancel(x, multiset(a[1..]), multiset(front + back));
      BroughtForward(w, front, x, back, pool);
      StepStaysReady(w, x, pool);
      OrderDoesNotMatter(Take(w, x), a[1..], front + back, pool);
    }
  }
}
