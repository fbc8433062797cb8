/** What gives Routevane the right to remove or rewrite a route: an argument over
    whole histories of one surface, with failed sends, retired ledgers and a
    router that others edit between any two steps. */
module RouteAuthority {
  import opened Text
  import opened Net
  import opened RouteLabels
  import opened RouteLedger

  /** `observed` is the router table a send read; it may have nothing to do with
      what earlier sends wrote. Only a committed send replaces the ledger. */
  datatype Event =
    | Committed(output: Str, desired: Desired, observed: Table)
    | Failed(output: Str, desired: Desired, observed: Table)
    | Retired

  ghost function Recorded(before: Book, e: Event): Book {
    match e
    case Committed(o, desired, observed) => NextBook(before, o, desired, observed)
    case Failed(_, _, _) => before
    case Retired => Book(map[], map[])
  }

  ghost function BookAfter(h: seq<Event>): Book {
    if h == [] then Book(map[], map[]) else Recorded(BookAfter(h[..|h| - 1]), h[|h| - 1])
  }

  /** Event `k` is a committed send that wrote `p` when the router did not have it. */
  ghost predicate Wrote(h: seq<Event>, k: nat, p: Prefix)
    requires k < |h|
  {
    && h[k].Committed?
    && p !in h[k].observed
    && p in Mutation(BookAfter(h[..k]), h[k].output, h[k].desired, h[k].observed).upsert
  }

  /** `p` stayed in the ledger from event `k` on. */
  ghost predicate Unbroken(h: seq<Event>, k: nat, p: Prefix)
    requires k < |h|
  {
    forall j :: k < j <= |h| ==> p in BookAfter(h[..j]).routes
  }

  ghost predicate Earned(h: seq<Event>, p: Prefix) {
    exists k :: 0 <= k < |h| && Wrote(h, k, p) && Unbroken(h, k, p)
  }

  lemma MadeByCommit(b: Book, o: Str, desired: Desired, t: Table, p: Prefix)
    ensures Made(NextBook(b, o, desired, t), p) <==>
      (p !in t && p in Mutation(b, o, desired, t).upsert) || (Made(b, p) && p in NextBook(b, o, desired, t).routes)
  {
    hide Claimed, NextDescription, NextClaims;
  }

  lemma Prefixes(h: seq<Event>, j: nat)
    requires h != [] && j < |h|
    ensures h[..|h| - 1][..j] == h[..j]
  {
  }

  lemma EarnedFront(h: seq<Event>, p: Prefix)
    requires h != []
    ensures Earned(h, p) <==>
      (p in BookAfter(h).routes && (Wrote(h, |h| - 1, p) || Earned(h[..|h| - 1], p)))
  {
    hide BookAfter, Mutation;
    var n := |h| - 1;
    var front := h[..n];
    assert h[..|h|] == h;
    forall j | 0 <= j < |h| ensures front[..j] == h[..j] {
      Prefixes(h, j);
    }
    forall k | 0 <= k < n
      ensures Wrote(h, k, p) <==> Wrote(front, k, p)
      ensures Unbroken(h, k, p) <==> Unbroken(front, k, p) && p in BookAfter(h).routes
    {
      if Unbroken(front, k, p) && p in BookAfter(h).routes {
        forall j | k < j <= |h| ensures p in BookAfter(h[..j]).routes {
          if j <= n {
            assert front[..j] == h[..j];
          }
        }
      }
      if Unbroken(h, k, p) {
        forall j | k < j <= n ensures p in BookAfter(front[..j]).routes {
          assert front[..j] == h[..j];
        }
      }
    }
    if Earned(front, p) && p in BookAfter(h).routes {
      var k :| 0 <= k < n && Wrote(front, k, p) && Unbroken(front, k, p);
      assert Wrote(h, k, p) && Unbroken(h, k, p);
    }
    if Wrote(h, n, p) && p in BookAfter(h).routes {
      assert Unbroken(h, n, p);
    }
  }

  /** The created flag means exactly this: a committed send wrote the route while
      the router did not have it, and the ledger has kept it ever since. */
  lemma {:induction false} MadeIsEarned(h: seq<Event>, p: Prefix)
    ensures Made(BookAfter(h), p) <==> Earned(h, p)
    decreases |h|
  {
    if h != [] {
      var n := |h| - 1;
      MadeIsEarned(h[..n], p);
      EarnedFront(h, p);
      if h[n].Committed? {
        MadeByCommit(BookAfter(h[..n]), h[n].output, h[n].desired, h[n].observed, p);
      }
    }
  }

  /** Whatever happened before, a send removes or rewrites only routes it earned:
      it never touches a route that was on the router first. */
  lemma AuthorityOverRoutes(h: seq<Event>, o: Str, desired: Desired, observed: Table, p: Prefix)
    requires var c := Mutation(BookAfter(h), o, desired, observed);
      p in c.remove || (p in c.upsert && p in observed)
    ensures Earned(h, p)
  {
    hide NextDescription, NextClaims, Claimed;
    MadeIsEarned(h, p);
  }

  /** And it always takes back what it earned: an earned route that no output
      claims any more is removed if the router still shows it. */
  lemma EarnedIsReclaimed(h: seq<Event>, o: Str, desired: Desired, observed: Table, p: Prefix)
    ensures Earned(h, p) && p in observed && p !in Claimed(NextClaims(BookAfter(h).claims, o, desired)) ==>
      p in Mutation(BookAfter(h), o, desired, observed).remove
  {
    hide NextDescription, NextClaims, Claimed;
    MadeIsEarned(h, p);
  }

  /** After a retirement nothing is earned, so a surface that changed hands is
      never edited on the strength of an old ledger. */
  lemma RetirementForfeits(h: seq<Event>, o: Str, desired: Desired, observed: Table)
    requires h != [] && h[|h| - 1] == Retired
    ensures var c := Mutation(BookAfter(h), o, desired, observed);
      c.remove == {} && c.upsert.Keys !! observed.Keys
  {
    hide NextDescription, NextClaims, Claimed;
  }
}
