/**
  What one header does to forks, inbox and store, said of the blocks
  themselves: which fork takes it, what waits, what leaves the inbox with it,
  and what pruning removes.
 */
module PoolMeaning {
  import opened Wrappers
  import opened Sequences
  import opened BlockTypes
  import opened ChainSegments
  import opened SegmentProperties
  import opened PoolSteps
  import opened PoolInvariants
  import opened PoolRuns
  import opened PoolLimits
  import opened TidyPools

  // ------------------------------------------------------- known and unplaced

  /** A header that is stored already changes nothing but its entry. */
  lemma KnownIgnored(p: Pool, h: BlockHeader)
    requires Descends(p.store[h.id := h]) && h.id in p.store
    ensures Process(p, h) == Step(p.(store := p.store[h.id := h]), None, false)
  {
    hide Conclude, Grown, Place;
  }

  /** A new header is taken by some fork exactly when a fork holds its parent. */
  lemma TakenIff(w: ParentOf, p: Pool, h: BlockHeader)
    requires Genealogy(w) && WellFormed(w, h) && Settled(w, p) && h.id !in p.store
    ensures Place(p.forks, h).Some? <==> exists k :: k in p.forks && h.parent in p.forks[k]
    ensures forall k :: k in AcceptingForks(p.forks, h) <==> k in p.forks && h.parent in p.forks[k]
  {
    hide Append, Linked, Genealogy;
    forall k | k in p.forks ensures Append(p.forks[k], h) != Refused <==> h.parent in p.forks[k] {
      assert ForkOk(w, p.store, Base(p), p.forks[k]);
      AppendMeaning(w, p.forks[k], h);
    }
    if k :| k in p.forks && h.parent in p.forks[k] {
      assert k in AcceptingForks(p.forks, h);
    }
  }

  /** A new header whose parent is on no fork is put in the inbox, and nothing else happens. */
  lemma UnplacedWaits(w: ParentOf, p: Pool, h: BlockHeader)
    requires Genealogy(w) && WellFormed(w, h) && Settled(w, p)
    requires h.id !in p.store && forall k :: k in p.forks ==> h.parent !in p.forks[k]
    ensures Descends(p.store[h.id := h])
    ensures Process(p, h) == Step(Pool(p.canonical, p.orphans + {h.id}, p.forks, p.store[h.id := h]), None, false)
  {
    StoredAfter(w, p, h);
    hide Conclude, Grown, Place, Genealogy, Linked;
    TakenIff(w, p, h);
  }

  /**
    The fork with the least key among those that hold the parent takes the
    header: on top when the parent is its tip, and else as a new fork of the
    header and everything from the parent down, under the number of forks.
   */
  lemma PlacedMeaning(w: ParentOf, p: Pool, h: BlockHeader, k: nat, i: nat)
    requires Genealogy(w) && WellFormed(w, h) && Settled(w, p) && h.id !in p.store
    requires k in p.forks && i < |p.forks[k]| && p.forks[k][i] == h.parent
    requires forall j :: j in p.forks && j < k ==> h.parent !in p.forks[j]
    ensures i == 0 ==> Place(p.forks, h) == Some(Placement(p.forks[k := [h.id] + p.forks[k]], k))
    ensures i > 0 ==> Place(p.forks, h) == Some(Placement(p.forks[|p.forks| := [h.id] + p.forks[k][i..]], |p.forks|))
  {
    hide *;
    TakenIff(w, p, h);
    var s := p.forks[k];
    ForkIsOk(w, p, k);
    LeastIs(p.forks, h, k);
    PlaceAt(p.forks, h, k);
    AppendMeaning(w, s, h);
    if i > 0 {
      TipIsNot(w, s, h, i);
      NotOnFork(p, k, h.id);
      BranchFork(w, s, h, i);
    }
  }

  lemma LeastIs(forks: Forks, h: BlockHeader, k: nat)
    requires k in AcceptingForks(forks, h)
    requires forall j :: j in AcceptingForks(forks, h) ==> k <= j
    ensures AcceptingForks(forks, h) != {} && Least(AcceptingForks(forks, h)) == k
  {
    hide AcceptingForks;
    assert IsLeast(AcceptingForks(forks, h), k);
  }

  lemma PlaceAt(forks: Forks, h: BlockHeader, k: nat)
    requires k in forks && AcceptingForks(forks, h) != {} && Least(AcceptingForks(forks, h)) == k
    ensures match Append(forks[k], h)
            case Refused => true
            case Extended(grown) => Place(forks, h) == Some(Placement(forks[k := grown], k))
            case Forked(fork) => Place(forks, h) == Some(Placement(forks[|forks| := fork], |forks|))
  {
    hide Append, AcceptingForks;
  }

  lemma TipIsNot(w: ParentOf, s: seq<BlockIdentifier>, h: BlockHeader, i: nat)
    requires Linked(w, s) && 0 < i < |s| && s[i] == h.parent
    ensures h.parent != s[0]
  {
  }

  lemma ForkIsOk(w: ParentOf, p: Pool, k: nat)
    requires Settled(w, p) && k in p.forks
    ensures p.forks[k] != [] && Linked(w, p.forks[k]) && forall i :: 0 <= i < |p.forks[k]| ==> p.forks[k][i] in p.store
  {
    hide Linked;
    assert ForkOk(w, p.store, Base(p), p.forks[k]);
  }

  lemma NotOnFork(p: Pool, k: nat, id: BlockIdentifier)
    requires k in p.forks && id !in p.store && forall i :: 0 <= i < |p.forks[k]| ==> p.forks[k][i] in p.store
    ensures id !in p.forks[k]
  {
  }

  // ------------------------------------------------------------- the inbox

  /** A block that is on a fork, or whose parent is on it below the tip. */
  predicate Settles(w: ParentOf, s: seq<BlockIdentifier>, id: BlockIdentifier) {
    s != [] && (id in s || (w(id) in s && w(id) != s[0]))
  }

  lemma SettlesStill(w: ParentOf, s: seq<BlockIdentifier>, longer: seq<BlockIdentifier>, id: BlockIdentifier)
    requires Linked(w, longer) && IsSuffix(s, longer) && Settles(w, s, id)
    ensures Settles(w, longer, id)
  {
    if id !in s {
      var i := IndexOf(s, w(id));
      var d := |longer| - |s|;
      assert longer[d..][i] == longer[d + i];
      assert i > 0;
      assert longer[d + i].index < longer[0].index;
    } else {
      var i := IndexOf(s, id);
      assert longer[|longer| - |s|..][i] == longer[|longer| - |s| + i];
    }
  }

  /** What was applied so far has settled, and was not on the fork at first. */
  ghost predicate AppliedSettle(w: ParentOf, first: seq<BlockIdentifier>, a: Adoption) {
    forall id :: id in a.applied ==> Settles(w, a.segment, id) && id !in first
  }

  /** What is on the fork was there at first or was applied. */
  ghost predicate AllApplied(first: seq<BlockIdentifier>, a: Adoption) {
    forall id :: id in a.segment ==> id in first || id in a.applied
  }

  ghost predicate Adopting(w: ParentOf, store: HeadersStore, base: nat, first: seq<BlockIdentifier>, a: Adoption) {
    && ForkOk(w, store, base, a.segment) && IsSuffix(first, a.segment)
    && AppliedSettle(w, first, a) && AllApplied(first, a)
  }

  lemma {:induction false} AdoptPassSettles(w: ParentOf, base: nat, first: seq<BlockIdentifier>, a: Adoption,
                                            backlog: seq<BlockIdentifier>, store: HeadersStore)
    requires Genealogy(w) && StoreOk(w, store) && Adopting(w, store, base, first, a)
    ensures Adopting(w, store, base, first, AdoptPass(a, backlog, store))
    decreases |backlog|
  {
    hide Append, Adopting, StoreOk, Genealogy;
    if backlog != [] {
      var id, rest := backlog[0], backlog[1..];
      if id in a.applied || id !in store {
        AdoptPassSettles(w, base, first, a, rest, store);
      } else {
        AdoptOne(w, base, first, a, id, store);
        match Append(a.segment, store[id]) {
          case Refused => AdoptPassSettles(w, base, first, a, rest, store);
          case Extended(grown) => AdoptPassSettles(w, base, first, Adoption(grown, a.applied + {id}), rest, store);
          case Forked(_) => AdoptPassSettles(w, base, first, a.(applied := a.applied + {id}), rest, store);
        }
      }
    }
  }

  lemma AdoptGrows(w: ParentOf, store: HeadersStore, base: nat, first: seq<BlockIdentifier>, a: Adoption, id: BlockIdentifier)
    requires Adopting(w, store, base, first, a) && ForkOk(w, store, base, [id] + a.segment) && id !in a.segment
    ensures Adopting(w, store, base, first, Adoption([id] + a.segment, a.applied + {id}))
  {
    var s, grown := a.segment, [id] + a.segment;
    assert Linked(w, grown) && IsSuffix(first, s);
    hide ForkOk, Linked, IsSuffix, Settles;
    InSuffix(first, s, id);
    SuffixCons(first, s, id);
    SuffixSelf(s);
    SuffixCons(s, s, id);
    SettlesOnTop(w, s, id);
    forall b | b in a.applied ensures Settles(w, grown, b) {
      SettlesStill(w, s, grown, b);
    }
  }

  lemma SuffixSelf(s: seq<BlockIdentifier>)
    ensures IsSuffix(s, s)
  {
    assert s[|s| - |s|..] == s;
  }

  lemma SettlesOnTop(w: ParentOf, s: seq<BlockIdentifier>, id: BlockIdentifier)
    ensures Settles(w, [id] + s, id)
  {
  }

  lemma AdoptForks(w: ParentOf, store: HeadersStore, base: nat, first: seq<BlockIdentifier>, a: Adoption, id: BlockIdentifier)
    requires Adopting(w, store, base, first, a) && w(id) in a.segment && w(id) != a.segment[0] && id !in a.segment
    ensures Adopting(w, store, base, first, a.(applied := a.applied + {id}))
  {
    hide ForkOk, Linked;
    InSuffix(first, a.segment, id);
  }

  lemma AdoptOne(w: ParentOf, base: nat, first: seq<BlockIdentifier>, a: Adoption, id: BlockIdentifier, store: HeadersStore)
    requires Genealogy(w) && StoreOk(w, store) && Adopting(w, store, base, first, a) && id in store
    ensures Append(a.segment, store[id]).Extended? ==>
              Adopting(w, store, base, first, Adoption(Append(a.segment, store[id]).segment, a.applied + {id}))
    ensures Append(a.segment, store[id]).Forked? ==> Adopting(w, store, base, first, a.(applied := a.applied + {id}))
  {
    var s, h := a.segment, store[id];
    StoreHeaders(w, store, id);
    assert ForkOk(w, store, base, s);
    hide Append, Linked, Genealogy, StoreOk, Adopting;
    AppendKeeps(w, store, base, s, h);
    AppendMeaning(w, s, h);
    if Append(s, h).Extended? {
      AdoptGrows(w, store, base, first, a, id);
    } else if Append(s, h).Forked? {
      AdoptForks(w, store, base, first, a, id);
    }
  }

  lemma StoreHeaders(w: ParentOf, store: HeadersStore, id: BlockIdentifier)
    requires StoreOk(w, store) && id in store
    ensures WellFormed(w, store[id]) && store[id].id == id && store[id].parent == w(id)
  {
  }

  lemma InSuffix(first: seq<BlockIdentifier>, s: seq<BlockIdentifier>, id: BlockIdentifier)
    requires IsSuffix(first, s)
    ensures id in first ==> id in s
  {
    var i := IndexOf(first, id);
    assert i < |first| ==> s[|s| - |first|..][i] == s[|s| - |first| + i];
  }

  lemma SuffixCons(first: seq<BlockIdentifier>, s: seq<BlockIdentifier>, id: BlockIdentifier)
    requires IsSuffix(first, s)
    ensures IsSuffix(first, [id] + s)
  {
    assert ([id] + s)[|s| + 1 - |first|..] == s[|s| - |first|..];
  }

  lemma {:induction false} AdoptSettles(w: ParentOf, base: nat, first: seq<BlockIdentifier>, a: Adoption,
                                        backlog: seq<BlockIdentifier>, store: HeadersStore)
    requires Genealogy(w) && StoreOk(w, store) && Adopting(w, store, base, first, a)
    ensures Adopting(w, store, base, first, Adopt(a, backlog, store))
    decreases Members(backlog) - a.applied
  {
    hide Adopting, AdoptPass, StoreOk, Genealogy;
    var r := AdoptPass(a, backlog, store);
    AdoptPassSettles(w, base, first, a, backlog, store);
    if r.applied != a.applied {
      AdoptShrinks(a, backlog, store);
      AdoptSettles(w, base, first, r, backlog, store);
    }
  }

  lemma {:induction false} AdoptFromBacklog(a: Adoption, backlog: seq<BlockIdentifier>, store: HeadersStore, id: BlockIdentifier)
    ensures id in Adopt(a, backlog, store).applied ==> id in a.applied || id in backlog
    decreases Members(backlog) - a.applied
  {
    hide AdoptPass;
    var r := AdoptPass(a, backlog, store);
    if r.applied != a.applied {
      AdoptShrinks(a, backlog, store);
      AdoptFromBacklog(r, backlog, store, id);
    }
  }

  /** Which waiting blocks adoption takes: those that settle on the fork as it then is, and were not on it before. */
  lemma AdoptMeaning(w: ParentOf, base: nat, s: seq<BlockIdentifier>, orphans: set<BlockIdentifier>, store: HeadersStore,
                     id: BlockIdentifier)
    requires Genealogy(w) && StoreOk(w, store) && ForkOk(w, store, base, s) && id in orphans && id in store
    ensures var r := Adopt(Adoption(s, {}), InOrder(orphans), store);
            id in r.applied <==> id !in s && Settles(w, r.segment, id)
  {
    hide Adopt, Linked, Append, Genealogy, InOrder;
    var start, r := Adoption(s, {}), Adopt(Adoption(s, {}), InOrder(orphans), store);
    assert s[|s| - |s|..] == s;
    AdoptSettles(w, base, s, start, InOrder(orphans), store);
    AdoptComplete(start, InOrder(orphans), store, id);
    AdoptFromBacklog(start, InOrder(orphans), store, id);
    StoreHeaders(w, store, id);
    AppendMeaning(w, r.segment, store[id]);
  }

  // ------------------------------------------------- the order of adoption

  lemma {:induction false} InOrderSorted(s: set<BlockIdentifier>, i: nat, j: nat)
    requires i < j < |InOrder(s)|
    ensures Precedes(InOrder(s)[i], InOrder(s)[j])
    decreases |s|
  {
    hide Precedes, First;
    var rest := InOrder(s - {First(s)});
    assert InOrder(s) == [First(s)] + rest;
    if i == 0 {
      assert rest[j - 1] in rest;
    } else {
      InOrderSorted(s - {First(s)}, i - 1, j - 1);
    }
  }

  /** What a block must beat to be adopted on top of a tip: every waiting sibling with a greater hash. */
  predicate Wins(w: ParentOf, orphans: set<BlockIdentifier>, b: BlockIdentifier) {
    forall o :: o in orphans && w(o) == w(b) ==> o.hash <= b.hash
  }

  ghost predicate Sorted(s: seq<BlockIdentifier>) {
    forall i, j :: 0 <= i < j < |s| ==> Precedes(s[i], s[j])
  }

  /** Waiting children of the tip are still to come, or else everything to come is lower than they are. */
  ghost predicate InTurn(w: ParentOf, orphans: set<BlockIdentifier>, a: Adoption, rest: seq<BlockIdentifier>) {
    && a.segment != []
    && forall o :: o in orphans && o !in a.applied && w(o) == a.segment[0] && o !in rest ==>
         forall j :: 0 <= j < |rest| ==> rest[j].index < o.index
  }

  ghost predicate Winners(w: ParentOf, orphans: set<BlockIdentifier>, first: seq<BlockIdentifier>, s: seq<BlockIdentifier>) {
    forall b :: b in s && b !in first ==> Wins(w, orphans, b)
  }

  /** A waiting block that the tip takes now wins over its siblings. */
  lemma NextWins(w: ParentOf, store: HeadersStore, base: nat, first: seq<BlockIdentifier>, orphans: set<BlockIdentifier>,
                 a: Adoption, rest: seq<BlockIdentifier>)
    requires Genealogy(w) && StoreOk(w, store) && orphans <= store.Keys && Adopting(w, store, base, first, a)
    requires InTurn(w, orphans, a, rest) && Sorted(rest) && rest != [] && rest[0] != NULL_ID && w(rest[0]) == a.segment[0]
    ensures Wins(w, orphans, rest[0])
  {
    hide Linked, Adopting;
    var b := rest[0];
    forall o | o in orphans && w(o) == w(b) ensures o.hash <= b.hash {
      assert o != NULL_ID && a.segment[0] != NULL_ID by { TipIsBlock(w, store, base, first, a); }
      assert o.index == b.index;
      if o in a.applied {
        NoneOnTip(w, store, base, first, a, o);
      }
      if o in rest {
        var j := IndexOf(rest, o);
        assert j > 0 ==> Precedes(rest[0], rest[j]);
      }
    }
  }

  lemma TipIsBlock(w: ParentOf, store: HeadersStore, base: nat, first: seq<BlockIdentifier>, a: Adoption)
    requires Adopting(w, store, base, first, a)
    ensures a.segment != [] && a.segment[0] != NULL_ID
  {
  }

  /** No applied block has the tip for its parent. */
  lemma NoneOnTip(w: ParentOf, store: HeadersStore, base: nat, first: seq<BlockIdentifier>, a: Adoption, o: BlockIdentifier)
    requires Genealogy(w) && Adopting(w, store, base, first, a) && o in a.applied && o != NULL_ID
    ensures w(o) != a.segment[0]
  {
    assert Settles(w, a.segment, o);
    if o in a.segment {
      var i := IndexOf(a.segment, o);
      assert a.segment[i].index == a.segment[0].index - i;
    }
  }

  lemma {:induction false} AdoptPassWins(w: ParentOf, base: nat, first: seq<BlockIdentifier>, orphans: set<BlockIdentifier>,
                                         a: Adoption, rest: seq<BlockIdentifier>, store: HeadersStore)
    requires Genealogy(w) && StoreOk(w, store) && orphans <= store.Keys && Adopting(w, store, base, first, a)
    requires InTurn(w, orphans, a, rest) && Sorted(rest) && Winners(w, orphans, first, a.segment)
    requires forall b :: b in rest ==> b in orphans
    ensures Winners(w, orphans, first, AdoptPass(a, rest, store).segment)
    decreases |rest|
  {
    hide Append, Adopting, StoreOk, Genealogy, InTurn, Winners, Sorted;
    if rest != [] {
      var id, later := rest[0], rest[1..];
      LaterSorted(rest);
      if id in a.applied {
        TipIsBlock(w, store, base, first, a);
        TurnPasses(w, orphans, a, a, rest);
        AdoptPassWins(w, base, first, orphans, a, later, store);
      } else {
        assert id in store;
        AdoptOne(w, base, first, a, id, store);
        WinsOne(w, base, first, orphans, a, rest, store);
        match Append(a.segment, store[id]) {
          case Refused => AdoptPassWins(w, base, first, orphans, a, later, store);
          case Extended(grown) => AdoptPassWins(w, base, first, orphans, Adoption(grown, a.applied + {id}), later, store);
          case Forked(_) => AdoptPassWins(w, base, first, orphans, a.(applied := a.applied + {id}), later, store);
        }
      }
    }
  }

  lemma LaterSorted(rest: seq<BlockIdentifier>)
    requires Sorted(rest) && rest != []
    ensures Sorted(rest[1..])
    ensures forall b :: b in rest <==> b == rest[0] || b in rest[1..]
  {
    assert rest == [rest[0]] + rest[1..];
  }

  /** The first of the rest is applied, or is no child of the tip. */
  lemma TurnPasses(w: ParentOf, orphans: set<BlockIdentifier>, a: Adoption, b: Adoption, rest: seq<BlockIdentifier>)
    requires InTurn(w, orphans, a, rest) && rest != [] && a.segment != [] && b.segment == a.segment && a.applied <= b.applied
    requires rest[0] in b.applied || w(rest[0]) != a.segment[0]
    ensures InTurn(w, orphans, b, rest[1..])
  {
    forall o | o in orphans && o !in b.applied && w(o) == b.segment[0] && o !in rest[1..]
      ensures forall j :: 0 <= j < |rest[1..]| ==> rest[1..][j].index < o.index
    {
      assert o !in rest by { assert rest == [rest[0]] + rest[1..]; }
      forall j | 0 <= j < |rest[1..]| ensures rest[1..][j].index < o.index {
        assert rest[1..][j] == rest[j + 1];
      }
    }
  }

  /** On a new tip everything to come is lower than its children. */
  lemma TurnStarts(w: ParentOf, orphans: set<BlockIdentifier>, b: Adoption, rest: seq<BlockIdentifier>)
    requires Genealogy(w) && Sorted(rest) && rest != [] && b.segment != [] && b.segment[0] == rest[0] && NULL_ID !in orphans
    requires rest[0] != NULL_ID
    ensures InTurn(w, orphans, b, rest[1..])
  {
    forall o | o in orphans && w(o) == rest[0] ensures forall j :: 0 <= j < |rest[1..]| ==> rest[1..][j].index < o.index {
      forall j | 0 <= j < |rest[1..]| ensures rest[1..][j].index < o.index {
        assert Precedes(rest[0], rest[j + 1]);
      }
    }
  }

  lemma WinsOne(w: ParentOf, base: nat, first: seq<BlockIdentifier>, orphans: set<BlockIdentifier>, a: Adoption,
                rest: seq<BlockIdentifier>, store: HeadersStore)
    requires Genealogy(w) && StoreOk(w, store) && orphans <= store.Keys && Adopting(w, store, base, first, a)
    requires InTurn(w, orphans, a, rest) && Sorted(rest) && Winners(w, orphans, first, a.segment)
    requires rest != [] && rest[0] in store
    ensures var id, later := rest[0], rest[1..];
      && (Append(a.segment, store[id]) == Refused ==> id in a.applied || InTurn(w, orphans, a, later))
      && (Append(a.segment, store[id]).Extended? ==>
            var grown := Append(a.segment, store[id]).segment;
            InTurn(w, orphans, Adoption(grown, a.applied + {id}), later) && Winners(w, orphans, first, grown))
      && (Append(a.segment, store[id]).Forked? ==> InTurn(w, orphans, a.(applied := a.applied + {id}), later))
  {
    var id, s := rest[0], a.segment;
    StoreHeaders(w, store, id);
    StoreBlocks(w, store, orphans);
    assert ForkOk(w, store, base, s);
    hide Append, Linked, Genealogy, StoreOk, Adopting, InTurn, Sorted, Wins;
    AppendMeaning(w, s, store[id]);
    match Append(s, store[id]) {
      case Refused =>
        if w(id) != s[0] { TurnPasses(w, orphans, a, a, rest); }
      case Extended(grown) =>
        NextWins(w, store, base, first, orphans, a, rest);
        TurnStarts(w, orphans, Adoption(grown, a.applied + {id}), rest);
      case Forked(_) =>
        TurnPasses(w, orphans, a, a.(applied := a.applied + {id}), rest);
    }
  }

  lemma StoreBlocks(w: ParentOf, store: HeadersStore, orphans: set<BlockIdentifier>)
    requires StoreOk(w, store) && orphans <= store.Keys
    ensures NULL_ID !in orphans
  {
  }

  lemma {:induction false} AdoptWins(w: ParentOf, base: nat, first: seq<BlockIdentifier>, orphans: set<BlockIdentifier>, a: Adoption,
                                     store: HeadersStore)
    requires Genealogy(w) && StoreOk(w, store) && orphans <= store.Keys && Adopting(w, store, base, first, a)
    requires Winners(w, orphans, first, a.segment)
    ensures Winners(w, orphans, first, Adopt(a, InOrder(orphans), store).segment)
    decreases Members(InOrder(orphans)) - a.applied
  {
    hide Adopting, AdoptPass, StoreOk, Genealogy, Winners, InOrder, InTurn;
    var backlog := InOrder(orphans);
    var r := AdoptPass(a, backlog, store);
    AllInTurn(w, store, base, first, orphans, a);
    AdoptPassWins(w, base, first, orphans, a, backlog, store);
    AdoptPassSettles(w, base, first, a, backlog, store);
    if r.applied != a.applied {
      AdoptShrinks(a, backlog, store);
      AdoptWins(w, base, first, orphans, r, store);
    }
  }

  /** At the start of a pass everything waiting is still to come, highest first. */
  lemma AllInTurn(w: ParentOf, store: HeadersStore, base: nat, first: seq<BlockIdentifier>, orphans: set<BlockIdentifier>, a: Adoption)
    requires Adopting(w, store, base, first, a)
    ensures InTurn(w, orphans, a, InOrder(orphans)) && Sorted(InOrder(orphans))
  {
    hide InOrder, Adopting, Precedes;
    TipIsBlock(w, store, base, first, a);
    var s := InOrder(orphans);
    forall i, j | 0 <= i < j < |s| ensures Precedes(s[i], s[j]) {
      InOrderSorted(orphans, i, j);
    }
  }

  /**
    The fork that took a header, with what it adopted: it only grew, by waiting
    blocks, each with the greatest hash among those waiting for its parent.
   */
  lemma ForkAdopts(w: ParentOf, base: nat, s: seq<BlockIdentifier>, orphans: set<BlockIdentifier>, store: HeadersStore)
    requires Genealogy(w) && StoreOk(w, store) && ForkOk(w, store, base, s) && orphans <= store.Keys
    ensures var r := Adopt(Adoption(s, {}), InOrder(orphans), store);
      && ForkOk(w, store, base, r.segment) && IsSuffix(s, r.segment) && r.applied <= orphans
      && (forall b :: b in r.segment ==> b in s || b in orphans) && Winners(w, orphans, s, r.segment)
  {
    hide Adopt, Linked, Genealogy, InOrder, StoreOk, Settles;
    var start, r := Adoption(s, {}), Adopt(Adoption(s, {}), InOrder(orphans), store);
    SuffixSelf(s);
    AdoptSettles(w, base, s, start, InOrder(orphans), store);
    AdoptWins(w, base, s, orphans, start, store);
    forall id | id in r.applied ensures id in orphans {
      AdoptFromBacklog(start, InOrder(orphans), store, id);
    }
  }

  // ------------------------------------------------------ a placed header

  /** The forks and the inbox once a header has been placed, before pruning. */
  ghost predicate Absorbs(w: ParentOf, p: Pool, placed: Placement, q: Pool) {
    && placed.updated in placed.forks && q.forks.Keys == placed.forks.Keys
    && (forall j :: j in placed.forks && j != placed.updated ==> q.forks[j] == placed.forks[j])
    && IsSuffix(placed.forks[placed.updated], q.forks[placed.updated])
    && (forall b :: b in q.forks[placed.updated] ==> b in placed.forks[placed.updated] || b in p.orphans)
    && Winners(w, p.orphans, placed.forks[placed.updated], q.forks[placed.updated])
    && q.orphans <= p.orphans
    && (forall id :: id in p.orphans ==>
          (id !in q.orphans <==> id !in placed.forks[placed.updated] && Settles(w, q.forks[placed.updated], id)))
    && IsLongest(q.forks, q.canonical)
  }

  lemma PlacesHolds(p: Pool, h: BlockHeader)
    requires Places(p, h)
    ensures h.id !in p.store && p.canonical in p.forks && Place(p.forks, h).Some?
  {
  }

  lemma AfterParts(p: Pool, h: BlockHeader)
    requires Places(p, h)
    ensures var placed, store := Place(p.forks, h).value, p.store[h.id := h];
      && placed.updated in placed.forks
      && var r, q := Adopt(Adoption(placed.forks[placed.updated], {}), InOrder(p.orphans), store), After(p, h);
         && q.forks == placed.forks[placed.updated := r.segment] && q.orphans == p.orphans - r.applied
         && q.store == store && IsLongest(q.forks, q.canonical)
  {
    PlacedIn(p.forks, h);
    hide Place, Adopt, InOrder;
  }

  lemma AbsorbsBy(w: ParentOf, p: Pool, placed: Placement, q: Pool, r: Adoption)
    requires placed.updated in placed.forks && q.forks == placed.forks[placed.updated := r.segment]
    requires q.orphans == p.orphans - r.applied && IsLongest(q.forks, q.canonical)
    requires IsSuffix(placed.forks[placed.updated], r.segment)
    requires forall b :: b in r.segment ==> b in placed.forks[placed.updated] || b in p.orphans
    requires Winners(w, p.orphans, placed.forks[placed.updated], r.segment)
    requires forall id :: id in p.orphans ==> (id in r.applied <==> id !in placed.forks[placed.updated] && Settles(w, r.segment, id))
    ensures Absorbs(w, p, placed, q)
  {
    hide Settles, Winners, IsSuffix, IsLongest;
  }

  lemma PlacedForkOk(w: ParentOf, p: Pool, h: BlockHeader)
    requires Genealogy(w) && WellFormed(w, h) && Settled(w, p) && Places(p, h)
    ensures var placed, store := Place(p.forks, h).value, p.store[h.id := h];
      && StoreOk(w, store) && p.orphans <= store.Keys
      && placed.updated in placed.forks && ForkOk(w, store, Base(p), placed.forks[placed.updated])
  {
    StoredForks(w, p, h);
    hide Place, Linked, Genealogy;
    PlaceKeeps(w, p.store[h.id := h], Base(p), p.forks, h);
  }

  /**
    Over every settled pool: the fork that takes a header grows by waiting
    blocks, of several for one parent the one with the greatest hash; a block
    leaves the inbox exactly when it is on that fork, or its parent is on it
    below the tip; the other forks stay; a longest fork becomes canonical.
   */
  lemma PlacedAbsorbs(w: ParentOf, p: Pool, h: BlockHeader)
    requires Genealogy(w) && WellFormed(w, h) && Settled(w, p) && Places(p, h)
    ensures Absorbs(w, p, Place(p.forks, h).value, After(p, h))
    ensures After(p, h).store == p.store[h.id := h]
  {
    hide *;
    PlacesHolds(p, h);
    PlacedForkOk(w, p, h);
    AfterParts(p, h);
    var placed, store := Place(p.forks, h).value, p.store[h.id := h];
    var s := placed.forks[placed.updated];
    var r := Adopt(Adoption(s, {}), InOrder(p.orphans), store);
    ForkAdopts(w, Base(p), s, p.orphans, store);
    forall id | id in p.orphans ensures id in r.applied <==> id !in s && Settles(w, r.segment, id) {
      AdoptMeaning(w, Base(p), s, p.orphans, store, id);
    }
    AbsorbsBy(w, p, placed, After(p, h), r);
  }

  // ------------------------------------------------ forks and inbox are apart

  /** No waiting block is on a fork. */
  ghost predicate WaitsApart(p: Pool) {
    forall o, k :: o in p.orphans && k in p.forks ==> o !in p.forks[k]
  }

  /** The fork that took the header holds nothing else that was waiting. */
  lemma PlacedApart(w: ParentOf, p: Pool, h: BlockHeader)
    requires Genealogy(w) && WellFormed(w, h) && Settled(w, p) && Places(p, h) && WaitsApart(p)
    ensures var placed := Place(p.forks, h).value;
      forall o, k :: o in p.orphans && k in placed.forks ==> o !in placed.forks[k]
  {
    hide *;
    PlacesHolds(p, h);
    TakenIff(w, p, h);
    LeastTakes(p.forks, h);
    var k := Least(AcceptingForks(p.forks, h));
    ForkIsOk(w, p, k);
    AppendMeaning(w, p.forks[k], h);
    PlacedOn(p.forks, h);
    WaitingIsStored(w, p);
    StillApart(p, Place(p.forks, h).value, k, h.id);
  }

  lemma LeastTakes(forks: Forks, h: BlockHeader)
    requires Place(forks, h).Some?
    ensures AcceptingForks(forks, h) != {}
    ensures var k := Least(AcceptingForks(forks, h)); k in forks && Append(forks[k], h) != Refused
  {
    hide Append;
  }

  lemma WaitingIsStored(w: ParentOf, p: Pool)
    requires Settled(w, p)
    ensures p.orphans <= p.store.Keys
  {
  }

  lemma StillApart(p: Pool, placed: Placement, k: nat, id: BlockIdentifier)
    requires WaitsApart(p) && id !in p.orphans && k in p.forks
    requires placed.updated in placed.forks && HoldsOnly(p.forks[k], placed.forks[placed.updated], id)
    requires forall j :: j in placed.forks && j != placed.updated ==> j in p.forks && placed.forks[j] == p.forks[j]
    ensures forall o, j :: o in p.orphans && j in placed.forks ==> o !in placed.forks[j]
  {
    forall o, j | o in p.orphans && j in placed.forks ensures o !in placed.forks[j] {
      if j == placed.updated {
        assert o !in p.forks[k];
      } else {
        assert o !in p.forks[j];
      }
    }
  }

  /** A fork that took a header holds nothing else that is new to it. */
  predicate HoldsOnly(s: seq<BlockIdentifier>, grown: seq<BlockIdentifier>, id: BlockIdentifier) {
    forall b :: b in grown ==> b == id || b in s
  }

  lemma PlacedOn(forks: Forks, h: BlockHeader)
    requires Place(forks, h).Some? && AcceptingForks(forks, h) != {}
    requires var s := forks[Least(AcceptingForks(forks, h))];
      match Append(s, h)
      case Refused => false
      case Extended(grown) => grown == [h.id] + s
      case Forked(fork) => fork != [] && fork[0] == h.id && |fork| <= |s| && fork[1..] == s[|s| - |fork| + 1..]
    ensures var placed, s := Place(forks, h).value, forks[Least(AcceptingForks(forks, h))];
      && placed.updated in placed.forks && HoldsOnly(s, placed.forks[placed.updated], h.id)
      && forall j :: j in placed.forks && j != placed.updated ==> j in forks && placed.forks[j] == forks[j]
  {
    hide Append;
    var s := forks[Least(AcceptingForks(forks, h))];
    if Append(s, h).Forked? {
      var fork := Append(s, h).fork;
      assert fork == [fork[0]] + fork[1..];
    }
  }

  lemma AfterApart(w: ParentOf, p: Pool, h: BlockHeader)
    requires Genealogy(w) && WellFormed(w, h) && Settled(w, p) && Places(p, h) && WaitsApart(p)
    ensures WaitsApart(After(p, h))
  {
    hide Place, Genealogy, Linked, After, Winners, IsLongest, Settled;
    PlacedAbsorbs(w, p, h);
    PlacedApart(w, p, h);
    var q := After(p, h);
    forall o, k | o in q.orphans && k in q.forks ensures o !in q.forks[k] {
      SettlesOn(w, q.forks[k], o);
    }
  }

  /**
    Over every settled pool whose waiting blocks are on no fork: after a
    placement, a block has left the inbox if and only if it is on the fork that
    took the header, or its parent is on that fork strictly below the tip.
   */
  lemma InboxLeavesIff(w: ParentOf, p: Pool, h: BlockHeader, id: BlockIdentifier)
    requires Genealogy(w) && WellFormed(w, h) && Settled(w, p) && Places(p, h) && WaitsApart(p) && id in p.orphans
    ensures var u, q := Place(p.forks, h).value.updated, After(p, h);
      && u in q.forks && q.forks[u] != [] && h.id in q.forks[u]
      && (id !in q.orphans <==> id in q.forks[u] || (w(id) in q.forks[u] && w(id) != q.forks[u][0]))
  {
    hide Place, Genealogy, Linked, After, Winners, IsLongest, Settled;
    PlacedAbsorbs(w, p, h);
    PlacedApart(w, p, h);
    PlacedHeader(w, p, h);
    var placed, q := Place(p.forks, h).value, After(p, h);
    InSuffix(placed.forks[placed.updated], q.forks[placed.updated], h.id);
  }

  lemma SettlesOn(w: ParentOf, s: seq<BlockIdentifier>, id: BlockIdentifier)
    ensures id in s ==> Settles(w, s, id)
  {
  }

  lemma PlacedHeader(w: ParentOf, p: Pool, h: BlockHeader)
    requires Genealogy(w) && WellFormed(w, h) && Settled(w, p) && Places(p, h)
    ensures var placed := Place(p.forks, h).value;
      placed.updated in placed.forks && h.id in placed.forks[placed.updated]
  {
    PlacesHolds(p, h);
    var k := Least(AcceptingForks(p.forks, h));
    assert ForkOk(w, p.store, Base(p), p.forks[k]);
    hide Append, Linked, Genealogy;
    AppendMeaning(w, p.forks[k], h);
  }

  // ----------------------------------------------------------------- pruning

  /** A block is one of the ancestors that leave six above them. */
  ghost predicate Confirmed(p: Pool, id: BlockIdentifier)
    requires p.canonical in p.forks && Canonical(p) != [] && Descends(p.store)
  {
    id in FullWalk(p) && id.index < Canonical(p)[0].index - 5
  }

  /**
    What pruning leaves, with the cut-off five below the tip: of the forks and
    the inbox everything from the cut-off up, and in the store everything but
    the confirmed blocks and what forks and inbox lost.
   */
  ghost predicate CutAt(p: Pool, height: nat, q: Pool)
    requires p.canonical in p.forks && Canonical(p) != [] && Descends(p.store)
  {
    && q.canonical == p.canonical
    && (forall k :: k in q.forks <==> k in p.forks && p.forks[k] != [] && p.forks[k][0].index >= height)
    && (forall k :: k in q.forks ==> q.forks[k] <= p.forks[k] && forall b :: b in q.forks[k] <==> b in p.forks[k] && b.index >= height)
    && (forall o :: o in q.orphans <==> o in p.orphans && o.index >= height)
    && (forall b :: b in q.store <==> b in p.store && !Confirmed(p, b) && !Cut(p, height, b))
    && (forall b :: b in q.store ==> q.store[b] == p.store[b])
  }

  /** A block of a fork or of the inbox that lies below the cut-off. */
  ghost predicate Cut(p: Pool, height: nat, b: BlockIdentifier) {
    b.index < height && (b in p.orphans || exists k :: k in p.forks && b in p.forks[k])
  }

  lemma CutFork(w: ParentOf, store: HeadersStore, base: nat, s: seq<BlockIdentifier>, height: nat)
    requires ForkOk(w, store, base, s)
    ensures AtOrAbove(s, height) <= s && (AtOrAbove(s, height) != [] <==> s[0].index >= height)
    ensures forall b :: b in AtOrAbove(s, height) <==> b in s && b.index >= height
    ensures forall b :: b in Below(s, height) <==> b in s && b.index < height
  {
    hide AtOrAbove, Below;
    SegmentProperties.PruneMeaning(w, s, height);
    forall b ensures b in AtOrAbove(s, height) <==> b in s && b.index >= height
      ensures b in Below(s, height) <==> b in s && b.index < height
    {
      Parts(s, height, b);
    }
  }

  /** Pruning, in terms of the blocks themselves. */
  lemma PruneExactly(w: ParentOf, base: nat, p: Pool, event: BlockchainEvent)
    requires Genealogy(w) && Advanced(w, base, p) && Descends(p.store) && EndsAtTip(p, event)
    ensures !Prunes(p, event) ==> Prune(p, event).0 == p
    ensures Prunes(p, event) ==> Canonical(p)[0].index >= 5 && CutAt(p, Canonical(p)[0].index - 5, Prune(p, event).0)
  {
    hide *;
    AdvancedMeans(w, base, p);
    PruneUnfolds(p, event);
    if Prunes(p, event) {
      WalkCuts(w, base, p);
      var height := Canonical(p)[0].index - 5;
      CutForks(w, base, p, height);
      CutIs(p, height, FullWalk(p)[6..], Prune(p, event).0);
    }
  }

  lemma CutForks(w: ParentOf, base: nat, p: Pool, height: nat)
    requires ForksOk(w, p.store, base, p.forks)
    ensures forall k :: k in p.forks ==> CutsTo(p.forks[k], height, AtOrAbove(p.forks[k], height), Below(p.forks[k], height))
  {
    hide AtOrAbove, Below, Linked;
    forall k | k in p.forks ensures CutsTo(p.forks[k], height, AtOrAbove(p.forks[k], height), Below(p.forks[k], height)) {
      assert ForkOk(w, p.store, base, p.forks[k]);
      CutFork(w, p.store, base, p.forks[k], height);
    }
  }

  ghost predicate CutsTo(s: seq<BlockIdentifier>, height: nat, above: seq<BlockIdentifier>, below: seq<BlockIdentifier>) {
    && s != [] && above <= s && (above != [] <==> s[0].index >= height)
    && (forall b :: b in above <==> b in s && b.index >= height)
    && (forall b :: b in below <==> b in s && b.index < height)
  }

  /** The confirmed part of the walk is what lies below the cut-off. */
  lemma WalkCuts(w: ParentOf, base: nat, p: Pool)
    requires Genealogy(w) && Advanced(w, base, p) && Descends(p.store) && Canonical(p) != [] && |FullWalk(p)| >= 7
    ensures FullWalk(p)[5].index == Canonical(p)[0].index - 5
    ensures Canonical(p)[0].index >= 5 && forall b :: b in FullWalk(p)[6..] <==> Confirmed(p, b)
  {
    hide ForksOk, StoreOk, Genealogy;
    WalkLinked(w, p.store, Canonical(p)[0]);
    LinkedCut(w, FullWalk(p));
  }

  lemma LinkedCut(w: ParentOf, s: seq<BlockIdentifier>)
    requires Linked(w, s) && |s| >= 7
    ensures s[5].index == s[0].index - 5
    ensures forall b :: b in s[6..] <==> b in s && b.index < s[0].index - 5
  {
    forall b | b in s && b.index < s[0].index - 5 ensures b in s[6..] {
      var i :| 0 <= i < |s| && s[i] == b;
      assert s[6..][i - 6] == b;
    }
    forall b | b in s[6..] ensures b in s && b.index < s[0].index - 5 {
      var i :| 0 <= i < |s[6..]| && s[6..][i] == b;
      assert s[i + 6] == b;
    }
  }

  lemma CutIs(p: Pool, height: nat, confirmed: seq<BlockIdentifier>, q: Pool)
    requires p.canonical in p.forks && Canonical(p) != [] && Descends(p.store)
    requires forall k :: k in p.forks ==> CutsTo(p.forks[k], height, AtOrAbove(p.forks[k], height), Below(p.forks[k], height))
    requires forall b :: b in confirmed <==> Confirmed(p, b)
    requires q == Pool(p.canonical, p.orphans - Outdated(p.orphans, height), PruneForks(p.forks, height),
                       p.store - Members(confirmed) - (PrunedIds(p.forks, height) + Outdated(p.orphans, height)))
    ensures CutAt(p, height, q)
  {
    hide AtOrAbove, Below, Confirmed, Walk;
    CutStored(p, height);
  }

  lemma CutStored(p: Pool, height: nat)
    requires forall k :: k in p.forks ==> CutsTo(p.forks[k], height, AtOrAbove(p.forks[k], height), Below(p.forks[k], height))
    ensures forall b :: b in PrunedIds(p.forks, height) || b in Outdated(p.orphans, height) <==> Cut(p, height, b)
  {
    hide AtOrAbove, Below;
    forall k, b | k in p.forks && b in p.forks[k] && b.index < height ensures b in PrunedIds(p.forks, height) {
      assert CutsTo(p.forks[k], height, AtOrAbove(p.forks[k], height), Below(p.forks[k], height));
      assert b in Below(p.forks[k], height);
    }
    forall b | b in PrunedIds(p.forks, height) ensures Cut(p, height, b) {
      var k :| k in p.forks && b in Below(p.forks[k], height);
      assert CutsTo(p.forks[k], height, AtOrAbove(p.forks[k], height), Below(p.forks[k], height));
    }
  }

  // ------------------------------------------------------------------- runs

  lemma CutApart(p: Pool, height: nat, q: Pool)
    requires p.canonical in p.forks && Canonical(p) != [] && Descends(p.store) && CutAt(p, height, q) && WaitsApart(p)
    ensures WaitsApart(q)
  {
    hide Walk, Descends, Confirmed, Cut;
  }

  lemma PrunedApart(w: ParentOf, base: nat, q: Pool, event: BlockchainEvent)
    requires Genealogy(w) && Advanced(w, base, q) && Descends(q.store) && EndsAtTip(q, event) && WaitsApart(q)
    ensures WaitsApart(Prune(q, event).0)
  {
    hide *;
    AdvancedMeans(w, base, q);
    PruneExactly(w, base, q, event);
    if Prunes(q, event) {
      CutApart(q, Canonical(q)[0].index - 5, Prune(q, event).0);
    }
  }

  lemma RenamedApart(q: Pool, id: nat)
    requires WaitsApart(q)
    ensures WaitsApart(q.(canonical := id))
  {
  }

  lemma CanonicalOk(w: ParentOf, base: nat, q: Pool)
    requires Advanced(w, base, q)
    ensures q.canonical in q.forks && ForkOk(w, q.store, base, Canonical(q))
  {
    hide ForkOk, StoreOk;
  }

  lemma ConcludedApart(w: ParentOf, base: nat, q: Pool, previousId: nat, previous: seq<BlockIdentifier>)
    requires Genealogy(w) && Advanced(w, base, q) && Descends(q.store) && WaitsApart(q)
    requires q.canonical in q.forks && ForkOk(w, q.store, base, previous) && |previous| <= MAX_SEGMENT_LENGTH
    ensures WaitsApart(Conclude(q, previousId, previous).pool)
  {
    hide *;
    AdvancedMeans(w, base, q);
    CanonicalOk(w, base, q);
    Concluded(w, base, q, previousId, previous);
    RenamedApart(q, previousId);
    if Conclude(q, previousId, previous).event.Some? {
      EventAtTip(w, base, q, previous);
      PrunedApart(w, base, q, GenerateEvent(Canonical(q), previous, q.store).value);
    }
  }

  /** No step puts a block of the inbox on a fork without taking it out. */
  lemma StepWaitsApart(w: ParentOf, p: Pool, h: BlockHeader)
    requires Genealogy(w) && WellFormed(w, h) && Invariant(w, p) && WaitsApart(p)
    ensures Descends(p.store[h.id := h]) && WaitsApart(Process(p, h).pool)
  {
    hide Process, Settled, Genealogy, Conclude, After, Place, Places;
    StepInvariant(w, p, h);
    if p == EMPTY_POOL {
      FirstStep(w, h);
    } else if h.id in p.store {
      KnownIgnored(p, h);
    } else if Places(p, h) {
      AfterApart(w, p, h);
      ProcessCases(p, h);
      AfterKeeps(w, p, h);
      AtMostSix(w, p);
      AdvancedMeans(w, Base(p), After(p, h));
      ConcludedApart(w, Base(p), After(p, h), p.canonical, Canonical(p));
    } else {
      UnplacedApart(w, p, h);
    }
  }

  lemma UnplacedApart(w: ParentOf, p: Pool, h: BlockHeader)
    requires Genealogy(w) && WellFormed(w, h) && Settled(w, p) && h.id !in p.store && !Places(p, h) && WaitsApart(p)
    ensures Descends(p.store[h.id := h]) && WaitsApart(Process(p, h).pool)
  {
    hide Process, Genealogy, Place, Linked;
    TakenIff(w, p, h);
    UnplacedWaits(w, p, h);
    forall k | k in p.forks ensures h.id !in p.forks[k] {
      assert ForkOk(w, p.store, Base(p), p.forks[k]);
    }
  }

  /** Over every run from a new pool, forks and inbox stay apart. */
  lemma {:induction false} RunWaitsApart(w: ParentOf, p: Pool, headers: seq<BlockHeader>)
    requires Genealogy(w) && AllWellFormed(w, headers) && Invariant(w, p) && WaitsApart(p)
    ensures WaitsApart(Perform(w, p, headers).pool)
    decreases |headers|
  {
    hide Process, Next, Invariant, WaitsApart;
    if headers != [] {
      StepWaitsApart(w, p, headers[0]);
      var r := Next(w, p, headers[0]);
      if !r.diverged {
        RunWaitsApart(w, r.pool, headers[1..]);
      }
    }
  }

  lemma WaitsApartFromStart(w: ParentOf, headers: seq<BlockHeader>)
    requires Genealogy(w) && AllWellFormed(w, headers)
    ensures WaitsApart(Perform(w, EMPTY_POOL, headers).pool)
  {
    hide Perform;
    RunWaitsApart(w, EMPTY_POOL, headers);
  }
}
