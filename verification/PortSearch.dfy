/** The search for a desktop port: a sparse, partial Fisher-Yates shuffle of a band
    of ports, as a draw without replacement. cmd/routevane/desktop.go. */
module PortSearch {
  import opened Wrappers

  const FIRST := 20000
  const COUNT := 10000
  const ATTEMPTS := 32

  /** The dense shuffle that the sparse map stands for: what is at each position. */
  type Deck = seq<int>

  function Fresh(n: nat): Deck {
    seq(n, i => i)
  }

  /** Draw position `i` of the first `n`: the last of them takes its place. */
  function Drawn(deck: Deck, n: nat, i: nat): Deck
    requires i < n <= |deck|
  {
    deck[i := deck[n - 1]]
  }

  /** What a sequence of index choices draws. */
  function Draws(deck: Deck, n: nat, choices: seq<nat>): seq<int>
    requires n <= |deck| && InRange(n, choices)
    decreases |choices|
  {
    if choices == [] then []
    else [deck[choices[0]]] + Draws(Drawn(deck, n, choices[0]), n - 1, choices[1..])
  }

  /** Each choice is an index into what is left. */
  predicate InRange(n: nat, choices: seq<nat>)
    decreases |choices|
  {
    choices == [] || (choices[0] < n && InRange(n - 1, choices[1..]))
  }

  predicate Distinct(s: seq<int>) {
    forall i, j :: 0 <= i < j < |s| ==> s[i] != s[j]
  }

  ghost function Cards(deck: Deck, n: nat): set<int>
    requires n <= |deck|
  {
    set k | 0 <= k < n :: deck[k]
  }

  lemma DrawnCards(deck: Deck, n: nat, i: nat)
    requires i < n <= |deck| && Distinct(deck[..n])
    ensures Distinct(Drawn(deck, n, i)[..n - 1])
    ensures Cards(Drawn(deck, n, i), n - 1) == Cards(deck, n) - {deck[i]}
  {
    var next := Drawn(deck, n, i);
    assert forall a, b :: 0 <= a < b < n ==> deck[..n][a] != deck[..n][b];
    assert forall a :: 0 <= a < n - 1 ==> next[a] == if a == i then deck[n - 1] else deck[a];
    forall x | x in Cards(deck, n) - {deck[i]} ensures x in Cards(next, n - 1) {
      var k :| 0 <= k < n && deck[k] == x;
      assert next[if k == n - 1 then i else k] == x;
    }
  }

  /** A draw gives distinct cards of the deck. */
  lemma {:induction false} DrawsAreDistinct(deck: Deck, n: nat, choices: seq<nat>)
    requires n <= |deck| && InRange(n, choices) && Distinct(deck[..n])
    ensures var d := Draws(deck, n, choices);
      |d| == |choices| && Distinct(d) && forall k :: 0 <= k < |d| ==> d[k] in Cards(deck, n)
    decreases |choices|
  {
    if choices != [] {
      var i := choices[0];
      DrawnCards(deck, n, i);
      DrawsAreDistinct(Drawn(deck, n, i), n - 1, choices[1..]);
      var rest := Draws(Drawn(deck, n, i), n - 1, choices[1..]);
      assert deck[i] in Cards(deck, n);
      assert forall k :: 0 <= k < |rest| ==> rest[k] in Cards(Drawn(deck, n, i), n - 1);
    }
  }

  /** Every sequence of distinct cards is drawn by some choices... */
  lemma {:induction false} EveryDrawArises(deck: Deck, n: nat, cards: seq<int>) returns (choices: seq<nat>)
    requires n <= |deck| && Distinct(deck[..n]) && Distinct(cards)
    requires forall k :: 0 <= k < |cards| ==> cards[k] in Cards(deck, n)
    ensures InRange(n, choices) && Draws(deck, n, choices) == cards
    decreases |cards|
  {
    if cards == [] {
      choices := [];
    } else {
      var i :| 0 <= i < n && deck[i] == cards[0];
      DrawnCards(deck, n, i);
      forall k | 0 <= k < |cards[1..]| ensures cards[1..][k] in Cards(Drawn(deck, n, i), n - 1) {
        assert cards[k + 1] != cards[0];
      }
      var rest := EveryDrawArises(Drawn(deck, n, i), n - 1, cards[1..]);
      choices := [i] + rest;
      assert choices[1..] == rest;
    }
  }

  /** ... and by no others. */
  lemma {:induction false} DrawDeterminesChoices(deck: Deck, n: nat, a: seq<nat>, b: seq<nat>)
    requires n <= |deck| && Distinct(deck[..n]) && InRange(n, a) && InRange(n, b)
    requires Draws(deck, n, a) == Draws(deck, n, b)
    ensures a == b
    decreases |a|
  {
    DrawsAreDistinct(deck, n, a);
    DrawsAreDistinct(deck, n, b);
    if a != [] {
      var i, j := a[0], b[0];
      assert deck[i] == Draws(deck, n, a)[0] == Draws(deck, n, b)[0] == deck[j];
      assert deck[..n][i] == deck[i] && deck[..n][j] == deck[j];
      assert i == j;
      DrawnCards(deck, n, i);
      var x, y := Draws(Drawn(deck, n, i), n - 1, a[1..]), Draws(Drawn(deck, n, i), n - 1, b[1..]);
      assert x == Draws(deck, n, a)[1..] && y == Draws(deck, n, b)[1..];
      DrawDeterminesChoices(Drawn(deck, n, i), n - 1, a[1..], b[1..]);
      assert a == [a[0]] + a[1..] && b == [b[0]] + b[1..];
    }
  }

  predicate InBand(port: int) {
    FIRST <= port < FIRST + COUNT
  }

  /** The deck before the first attempt: the failed port is no longer among the
      candidates. */
  function StartSize(failed: int): nat {
    if InBand(failed) then COUNT - 1 else COUNT
  }

  function StartDeck(failed: int): (d: Deck)
    ensures |d| == COUNT
  {
    if InBand(failed) then Drawn(Fresh(COUNT), COUNT, failed - FIRST) else Fresh(COUNT)
  }

  predicate Eligible(failed: int, port: int) {
    InBand(port) && port != failed
  }

  lemma StartIsEligible(failed: int)
    ensures Distinct(StartDeck(failed)[..StartSize(failed)])
    ensures forall x :: x in Cards(StartDeck(failed), StartSize(failed)) <==> Eligible(failed, FIRST + x)
  {
    var f := Fresh(COUNT);
    assert f[..COUNT] == f;
    forall x ensures x in Cards(f, COUNT) <==> 0 <= x < COUNT {
      if 0 <= x < COUNT {
        assert f[x] == x;
      }
    }
    if InBand(failed) {
      DrawnCards(f, COUNT, failed - FIRST);
    }
  }

  // -------------------------------------------------------------- the search

  function DeckAfter(deck: Deck, n: nat, choices: seq<nat>): (r: Deck)
    requires n <= |deck| && InRange(n, choices)
    ensures |r| == |deck|
    decreases |choices|
  {
    if choices == [] then deck else DeckAfter(Drawn(deck, n, choices[0]), n - 1, choices[1..])
  }

  lemma {:induction false} OneMoreDraw(deck: Deck, n: nat, choices: seq<nat>, i: nat)
    requires n <= |deck| && InRange(n, choices) && |choices| < n && i < n - |choices|
    ensures InRange(n, choices + [i])
    ensures Draws(deck, n, choices + [i]) == Draws(deck, n, choices) + [DeckAfter(deck, n, choices)[i]]
    ensures DeckAfter(deck, n, choices + [i]) == Drawn(DeckAfter(deck, n, choices), n - |choices|, i)
    decreases |choices|
  {
    var more := choices + [i];
    if choices == [] {
      assert more[1..] == [];
    } else {
      OneMoreDraw(Drawn(deck, n, choices[0]), n - 1, choices[1..], i);
      assert more[1..] == choices[1..] + [i];
    }
  }

  /** The sparse map agrees with the dense deck on what is left. */
  predicate Stands(moved: map<int, int>, deck: Deck, n: nat)
    requires n <= |deck|
  {
    forall k :: 0 <= k < n ==> Offset(moved, k) == deck[k]
  }

  function Offset(moved: map<int, int>, position: int): int {
    if position in moved then moved[position] else position
  }

  function Ports(offsets: seq<int>): seq<int> {
    seq(|offsets|, i requires 0 <= i < |offsets| => FIRST + offsets[i])
  }

  /** `listenDesktopBand`, for an index source that may answer anything in range and
      ports that may or may not bind. What it attempts is the draw its indices stand
      for, so every attempt is in the band, new, and not the failed port. */
  method ListenDesktopBand(failed: int) returns (bound: Option<int>, choices: seq<nat>, attempted: seq<int>)
    ensures InRange(StartSize(failed), choices)
    ensures attempted == Ports(Draws(StartDeck(failed), StartSize(failed), choices))
    ensures Distinct(attempted) && forall k :: 0 <= k < |attempted| ==> Eligible(failed, attempted[k])
    ensures |attempted| <= ATTEMPTS
    ensures bound.None? ==> |attempted| == ATTEMPTS
    ensures bound.Some? ==> attempted != [] && bound.value == attempted[|attempted| - 1]
  {
    hide StartDeck, InRange, DeckAfter, Draws;
    var moved: map<int, int> := map[];
    var remaining := COUNT;
    ghost var deck := StartDeck(failed);
    if FIRST <= failed < FIRST + COUNT {
      remaining := remaining - 1;
      moved := moved[failed - FIRST := Offset(moved, remaining)];
    }
    StartStands(failed, moved);
    choices, attempted, bound := [], [], None;
    NoDraws(deck, remaining);
    var tries := 0;
    while tries < ATTEMPTS && bound.None?
      invariant tries == |choices| <= ATTEMPTS && remaining == StartSize(failed) - tries
      invariant InRange(StartSize(failed), choices)
      invariant Stands(moved, DeckAfter(deck, StartSize(failed), choices), remaining)
      invariant attempted == Ports(Draws(deck, StartSize(failed), choices)) && |attempted| == tries
      invariant bound.Some? ==> tries > 0 && bound.value == attempted[tries - 1]
    {
      var position: nat :| position < remaining;
      remaining := remaining - 1;
      var port := FIRST + Offset(moved, position);
      moved := moved[position := Offset(moved, remaining)];
      OneMoreDraw(deck, StartSize(failed), choices, position);
      choices, attempted := choices + [position], attempted + [port];
      tries := tries + 1;
      var listening: bool := *;
      if listening {
        bound := Some(port);
      }
    }
    StartIsEligible(failed);
    DrawsAreDistinct(deck, StartSize(failed), choices);
  }

  lemma StartStands(failed: int, moved: map<int, int>)
    requires moved == if InBand(failed) then map[failed - FIRST := COUNT - 1] else map[]
    ensures StartSize(failed) <= |StartDeck(failed)| && Stands(moved, StartDeck(failed), StartSize(failed))
  {
  }

  lemma NoDraws(deck: Deck, n: nat)
    requires n <= |deck|
    ensures InRange(n, []) && Draws(deck, n, []) == [] && DeckAfter(deck, n, []) == deck
  {
  }

  /** The choices of indices and the sequences of distinct eligible ports correspond
      one to one, so a uniform index source makes the search a uniform draw. */
  lemma SearchIsUniform(failed: int, ports: seq<int>) returns (choices: seq<nat>)
    requires Distinct(ports) && forall k :: 0 <= k < |ports| ==> Eligible(failed, ports[k])
    ensures InRange(StartSize(failed), choices) && Ports(Draws(StartDeck(failed), StartSize(failed), choices)) == ports
    ensures forall other :: InRange(StartSize(failed), other) ==>
      Ports(Draws(StartDeck(failed), StartSize(failed), other)) == ports ==> other == choices
  {
    hide StartDeck, InRange, Draws;
    var deck, n := StartDeck(failed), StartSize(failed);
    StartIsEligible(failed);
    var cards := seq(|ports|, i requires 0 <= i < |ports| => ports[i] - FIRST);
    forall k | 0 <= k < |cards| ensures cards[k] in Cards(deck, n) {
      assert FIRST + cards[k] == ports[k];
    }
    choices := EveryDrawArises(deck, n, cards);
    assert Ports(cards) == ports;
    forall other | InRange(n, other) && Ports(Draws(deck, n, other)) == ports ensures other == choices {
      var d := Draws(deck, n, other);
      assert |d| == |Ports(d)| == |cards|;
      assert forall k :: 0 <= k < |d| ==> FIRST + d[k] == Ports(d)[k];
      assert d == cards;
      DrawDeterminesChoices(deck, n, choices, other);
    }
  }
}
