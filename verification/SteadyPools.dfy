/**
  The pools its caller works on.  As long as every block had an event, nothing
  waits, the canonical fork is the one the pool would select, and a step gives
  an event exactly when heights and keys say so.
 */
module SteadyPools {
  import opened Wrappers
  import opened Sequences
  import opened BlockTypes
  import opened ChainSegments
  import opened SegmentProperties
  import opened PoolSteps
  import opened PoolInvariants
  import opened PoolRuns
  import opened PoolGuarantees
  import opened PoolLimits
  import opened TidyPools

  /** Stored blocks above a height have their parent stored. */
  ghost predicate ClosedAbove(w: ParentOf, store: HeadersStore, base: nat) {
    forall id :: id in store && id.index > base ==> w(id) in store
  }

  ghost predicate Steady(w: ParentOf, p: Pool) {
    && Settled(w, p) && p.orphans == {} && IsLongest(p.forks, p.canonical)
    && Rooted(w, p.store, Root(Canonical(p))) && ClosedAbove(w, p.store, Base(p))
  }

  ghost predicate Healthy(w: ParentOf, p: Pool) {
    p == EMPTY_POOL || Steady(w, p)
  }

  // ---------------------------------------------------------- no event, when

  /**
    Over every settled pool, a header has no event exactly when it is stored
    already, no fork takes it, the fork that is then selected stands on another
    oldest block, or the canonical blocks are the same as before.
   */
  lemma NoEventIff(w: ParentOf, p: Pool, h: BlockHeader)
    requires Genealogy(w) && WellFormed(w, h) && Settled(w, p)
    ensures Descends(p.store[h.id := h])
    ensures Process(p, h).event == None <==>
              || h.id in p.store || Place(p.forks, h) == None
              || Root(Canonical(After(p, h))) != Root(Canonical(p)) || Canonical(After(p, h)) == Canonical(p)
  {
    StoredAfter(w, p, h);
    hide Process, Place, Grown, Conclude, Linked, Root, Genealogy;
    ProcessCases(p, h);
    if Places(p, h) {
      AfterKeeps(w, p, h);
      Concluded(w, Base(p), After(p, h), p.canonical, Canonical(p));
    }
  }

  /** The order in which forks on one oldest block are preferred. */
  predicate Outgrows(height: nat, key: nat, tip: nat, canonical: nat) {
    height > tip || (height == tip && key > canonical)
  }

  /**
    What a caller can check beforehand: the block is known or has no fork, its
    fork does not get ahead or stands on another oldest block, or it displaces
    the canonical fork and the best fork left is no continuation of it.
   */
  ghost predicate Silent(p: Pool, h: BlockHeader) {
    Places(p, h) && Canonical(p) != [] ==>
      var forks, u := Place(p.forks, h).value.forks, Place(p.forks, h).value.updated;
      PlacedIn(p.forks, h);
      if u != p.canonical then
        !Outgrows(h.id.index, u, Canonical(p)[0].index, p.canonical) || Root(forks[u]) != Root(Canonical(p))
      else
        && h.parent != Canonical(p)[0]
        && var best := Select(forks);
           Root(forks[best]) != Root(Canonical(p)) || forks[best] == Canonical(p)
  }

  /** The forks once a header is placed: its own fork has it on top, the others are as before. */
  lemma PlacedShape(w: ParentOf, p: Pool, h: BlockHeader)
    requires Genealogy(w) && WellFormed(w, h) && Settled(w, p) && Places(p, h)
    ensures var placed, store := Place(p.forks, h).value, p.store[h.id := h];
      && placed.updated in placed.forks && placed.forks[placed.updated] != [] && placed.forks[placed.updated][0] == h.id
      && ForksOk(w, store, Base(p), placed.forks)
      && (forall j :: j in placed.forks && j != placed.updated ==> j in p.forks && placed.forks[j] == p.forks[j])
      && (forall j :: j in p.forks ==> j in placed.forks)
  {
    StoredForks(w, p, h);
    hide Append, Linked, Genealogy, StoreOk;
    PlaceKeeps(w, p.store[h.id := h], Base(p), p.forks, h);
    PlacedTop(w, p.store[h.id := h], Base(p), p.forks, h);
  }

  lemma PlacedTop(w: ParentOf, store: HeadersStore, base: nat, forks: Forks, h: BlockHeader)
    requires Genealogy(w) && WellFormed(w, h) && ForksOk(w, store, base, forks) && Place(forks, h).Some?
    ensures var placed := Place(forks, h).value;
      && placed.updated in placed.forks && placed.forks[placed.updated] != [] && placed.forks[placed.updated][0] == h.id
      && (forall j :: j in placed.forks && j != placed.updated ==> j in forks && placed.forks[j] == forks[j])
      && (forall j :: j in forks ==> j in placed.forks)
  {
    hide Append, Linked, Genealogy;
    var k := Least(AcceptingForks(forks, h));
    assert ForkOk(w, store, base, forks[k]);
    AppendMeaning(w, forks[k], h);
  }

  // ------------------------------------------------------------- selection

  /** The new fork is selected when it outgrows the canonical one. */
  lemma SelectsNew(w: ParentOf, p: Pool, h: BlockHeader)
    requires Genealogy(w) && WellFormed(w, h) && Steady(w, p) && Places(p, h)
    requires Place(p.forks, h).value.updated != p.canonical
    requires Outgrows(h.id.index, Place(p.forks, h).value.updated, Canonical(p)[0].index, p.canonical)
    ensures IsLongest(Place(p.forks, h).value.forks, Place(p.forks, h).value.updated)
  {
    hide Place, Linked, Genealogy, Rooted, ClosedAbove, StoreOk;
    PlacedShape(w, p, h);
    var next, u, store := Place(p.forks, h).value.forks, Place(p.forks, h).value.updated, p.store[h.id := h];
    assert ForkOk(w, store, Base(p), next[u]) && ForkOk(w, store, Base(p), next[p.canonical]);
    TipHeight(w, Base(p), store, next[u]);
    TipHeight(w, Base(p), store, next[p.canonical]);
  }

  /** Otherwise, unless it was displaced, the canonical fork stays selected. */
  lemma SelectsOld(w: ParentOf, p: Pool, h: BlockHeader)
    requires Genealogy(w) && WellFormed(w, h) && Steady(w, p) && Places(p, h)
    requires Place(p.forks, h).value.updated != p.canonical
    requires !Outgrows(h.id.index, Place(p.forks, h).value.updated, Canonical(p)[0].index, p.canonical)
    ensures IsLongest(Place(p.forks, h).value.forks, p.canonical)
    ensures Place(p.forks, h).value.forks[p.canonical] == Canonical(p)
  {
    hide Place, Linked, Genealogy, Rooted, ClosedAbove, StoreOk;
    PlacedShape(w, p, h);
    var next, u, store := Place(p.forks, h).value.forks, Place(p.forks, h).value.updated, p.store[h.id := h];
    assert ForkOk(w, store, Base(p), next[u]) && ForkOk(w, store, Base(p), next[p.canonical]);
    TipHeight(w, Base(p), store, next[u]);
    TipHeight(w, Base(p), store, next[p.canonical]);
  }

  /** Two forks of a pool that end in the same block are the same. */
  lemma SameTip(w: ParentOf, store: HeadersStore, base: nat, a: seq<BlockIdentifier>, b: seq<BlockIdentifier>)
    requires ForkOk(w, store, base, a) && ForkOk(w, store, base, b) && a[0] == b[0]
    ensures a == b
  {
    TipHeight(w, base, store, a);
    TipHeight(w, base, store, b);
    CommonBelow(w, a, 0, b, 0, |a|);
    assert a[0..0 + |a|] == a && b[0..0 + |a|] == b;
  }

  /** A header on the canonical tip grows a fork that equals the canonical one. */
  lemma TipExtends(w: ParentOf, p: Pool, h: BlockHeader)
    requires Genealogy(w) && WellFormed(w, h) && Settled(w, p) && Canonical(p) != []
    requires h.parent == Canonical(p)[0] && h.id !in p.store
    ensures Places(p, h)
    ensures var placed := Place(p.forks, h).value;
            placed.updated in p.forks && placed.forks == p.forks[placed.updated := [h.id] + Canonical(p)]
  {
    hide Linked, Genealogy, StoreOk, Append;
    assert ForkOk(w, p.store, Base(p), Canonical(p));
    AppendMeaning(w, Canonical(p), h);
    assert h.id !in Canonical(p);
    assert p.canonical in AcceptingForks(p.forks, h);
    var k := Least(AcceptingForks(p.forks, h));
    var s := p.forks[k];
    assert ForkOk(w, p.store, Base(p), s);
    AppendMeaning(w, s, h);
    TipIsTip(w, p.store, Base(p), Canonical(p), s);
    SameTip(w, p.store, Base(p), s, Canonical(p));
  }

  /** A tip of the highest height is on top of every fork that holds it. */
  lemma TipIsTip(w: ParentOf, store: HeadersStore, base: nat, longest: seq<BlockIdentifier>, s: seq<BlockIdentifier>)
    requires ForkOk(w, store, base, longest) && ForkOk(w, store, base, s) && |s| <= |longest| && longest[0] in s
    ensures s[0] == longest[0]
  {
    TipHeight(w, base, store, s);
    TipHeight(w, base, store, longest);
    var i := IndexOf(s, longest[0]);
    assert s[i].index == s[0].index - i;
  }

  lemma SteadyHolds(w: ParentOf, p: Pool)
    requires Steady(w, p)
    ensures Settled(w, p) && p.orphans == {} && p.canonical in p.forks && Canonical(p) != [] && p.store != map[]
    ensures Rooted(w, p.store, Root(Canonical(p))) && Conserved(w, p, Canonical(p), [])
  {
    hide Linked, Rooted, ClosedAbove;
    SettledHolds(w, p);
    assert Canonical(p) + [] == Canonical(p);
  }

  lemma FreshFork(w: ParentOf, p: Pool, s: seq<BlockIdentifier>, id: BlockIdentifier)
    requires Settled(w, p) && p.canonical in p.forks && s != [] && s[0] == id && id !in p.store
    ensures s != Canonical(p)
  {
    assert ForkOk(w, p.store, Base(p), Canonical(p));
  }

  lemma SilentElsewhere(w: ParentOf, p: Pool, h: BlockHeader)
    requires Genealogy(w) && WellFormed(w, h) && Steady(w, p) && Places(p, h) && Canonical(p) != []
    requires Place(p.forks, h).value.updated != p.canonical
    ensures Silent(p, h) <==> Root(Canonical(After(p, h))) != Root(Canonical(p)) || Canonical(After(p, h)) == Canonical(p)
    ensures !Silent(p, h) ==> Canonical(After(p, h))[0] == h.id
  {
    hide Place, After, Root, Genealogy, Settled, Linked, IsLongest, Rooted, ClosedAbove;
    var next, u := Place(p.forks, h).value.forks, Place(p.forks, h).value.updated;
    PlacedIn(p.forks, h);
    if Outgrows(h.id.index, u, Canonical(p)[0].index, p.canonical) {
      SelectsNew(w, p, h);
      CleanAfter(p, h, u);
      PlacedShape(w, p, h);
      FreshFork(w, p, next[u], h.id);
    } else {
      SelectsOld(w, p, h);
      CleanAfter(p, h, p.canonical);
    }
  }

  lemma TipSelected(w: ParentOf, p: Pool, h: BlockHeader)
    requires Genealogy(w) && WellFormed(w, h) && Steady(w, p) && Canonical(p) != []
    requires h.parent == Canonical(p)[0] && h.id !in p.store
    ensures Places(p, h) && Canonical(After(p, h)) == [h.id] + Canonical(p)
  {
    hide Place, After, Genealogy, Linked, Rooted, ClosedAbove, StoreOk, ForksOk;
    TipExtends(w, p, h);
    var u := Place(p.forks, h).value.updated;
    assert IsLongest(Place(p.forks, h).value.forks, u);
    CleanAfter(p, h, u);
  }

  /** A header whose parent is the canonical tip always has an event. */
  lemma TipSpeaks(w: ParentOf, p: Pool, h: BlockHeader)
    requires Genealogy(w) && WellFormed(w, h) && Steady(w, p) && Canonical(p) != []
    requires h.parent == Canonical(p)[0] && h.id !in p.store
    ensures Places(p, h) && Root(Canonical(After(p, h))) == Root(Canonical(p)) && Canonical(After(p, h)) != Canonical(p)
    ensures Canonical(After(p, h))[0] == h.id && !Silent(p, h)
  {
    hide After, Place, Genealogy, Settled, Linked, IsLongest, Rooted, ClosedAbove;
    TipSelected(w, p, h);
    if Place(p.forks, h).value.updated != p.canonical {
      SilentElsewhere(w, p, h);
    }
  }

  lemma SilentHere(p: Pool, h: BlockHeader)
    requires p.canonical in p.forks && Canonical(p) != [] && p.orphans == {} && Places(p, h)
    requires Place(p.forks, h).value.updated == p.canonical && h.parent != Canonical(p)[0]
    ensures Silent(p, h) <==> Root(Canonical(After(p, h))) != Root(Canonical(p)) || Canonical(After(p, h)) == Canonical(p)
  {
    hide Place, After, Root, IsLongest;
    PlacedIn(p.forks, h);
    CleanAfter(p, h, Select(Place(p.forks, h).value.forks));
  }

  /** Over every steady pool: the step has no event exactly when the caller's check says so. */
  lemma SilentIff(w: ParentOf, p: Pool, h: BlockHeader)
    requires Genealogy(w) && WellFormed(w, h) && Steady(w, p)
    ensures p.canonical in p.forks && Canonical(p) != [] && Descends(p.store[h.id := h])
    ensures Process(p, h).event == None <==> Silent(p, h)
  {
    SteadyHolds(w, p);
    hide Process, After, Place, Genealogy, Settled, Steady, Linked, Root, Outgrows;
    NoEventIff(w, p, h);
    if Places(p, h) {
      hide Silent;
      if Place(p.forks, h).value.updated != p.canonical {
        SilentElsewhere(w, p, h);
      } else if h.parent == Canonical(p)[0] {
        TipSpeaks(w, p, h);
      } else {
        SilentHere(p, h);
      }
    }
  }

  // ------------------------------------------------- steady pools stay steady

  lemma CutLengths(w: ParentOf, store: HeadersStore, base: nat, longest: seq<BlockIdentifier>, s: seq<BlockIdentifier>, height: nat)
    requires ForkOk(w, store, base, longest) && ForkOk(w, store, base, s) && |s| <= |longest| && height <= longest[0].index
    ensures AtOrAbove(longest, height) != []
    ensures |AtOrAbove(s, height)| <= |AtOrAbove(longest, height)|
    ensures AtOrAbove(s, height) != [] && |s| < |longest| ==> |AtOrAbove(s, height)| < |AtOrAbove(longest, height)|
  {
    hide AtOrAbove, Below;
    TipHeight(w, base, store, longest);
    TipHeight(w, base, store, s);
    SegmentProperties.PruneMeaning(w, longest, height);
    SegmentProperties.PruneMeaning(w, s, height);
  }

  /** Pruning leaves the longest fork the longest. */
  lemma PrunedRanked(w: ParentOf, store: HeadersStore, base: nat, forks: Forks, k: nat, height: nat)
    requires ForksOk(w, store, base, forks) && IsLongest(forks, k) && forks[k] != [] && height <= forks[k][0].index
    ensures IsLongest(PruneForks(forks, height), k)
  {
    hide AtOrAbove, ForkOk;
    assert ForkOk(w, store, base, forks[k]);
    forall j | j in forks
      ensures AtOrAbove(forks[k], height) != []
      ensures |AtOrAbove(forks[j], height)| <= |AtOrAbove(forks[k], height)|
      ensures AtOrAbove(forks[j], height) != [] && |forks[j]| < |forks[k]| ==>
                |AtOrAbove(forks[j], height)| < |AtOrAbove(forks[k], height)|
    {
      assert ForkOk(w, store, base, forks[j]);
      CutLengths(w, store, base, forks[k], forks[j], height);
    }
  }

  lemma ClosedKept(w: ParentOf, store: HeadersStore, left: HeadersStore, base: nat, height: nat)
    requires Genealogy(w) && ClosedAbove(w, store, base)
    requires left.Keys <= store.Keys && forall id :: id in store && id.index >= height ==> id in left
    ensures ClosedAbove(w, left, if base <= height then height else base)
  {
  }

  lemma PruneSteady(w: ParentOf, base: nat, q: Pool, event: BlockchainEvent)
    requires Genealogy(w) && Advanced(w, base, q) && Descends(q.store) && EndsAtTip(q, event)
    requires q.orphans == {} && ClosedAbove(w, q.store, base)
    ensures var r := Prune(q, event).0;
      r.orphans == {} && r.canonical in r.forks && IsLongest(r.forks, r.canonical) && ClosedAbove(w, r.store, Base(r))
  {
    hide PruneForks, AtOrAbove, Linked, Prune, PrunedIds, Members, Lookup, Reverse, Walk, IsLongest, Genealogy;
    AdvancedMeans(w, base, q);
    PruneUnfolds(q, event);
    if Prunes(q, event) {
      PruneSteadily(w, base, q, event);
    } else {
      assert ForkOk(w, q.store, base, Canonical(q));
    }
  }

  lemma PruneSteadily(w: ParentOf, base: nat, q: Pool, event: BlockchainEvent)
    requires Genealogy(w) && Advanced(w, base, q) && Descends(q.store) && EndsAtTip(q, event)
    requires q.orphans == {} && ClosedAbove(w, q.store, base) && Prunes(q, event)
    ensures var r := Prune(q, event).0;
      r.orphans == {} && r.canonical in r.forks && IsLongest(r.forks, r.canonical) && ClosedAbove(w, r.store, Base(r))
  {
    hide PruneForks, AtOrAbove, Linked, Prune, PrunedIds, Members, Lookup, Reverse, Walk, ForkOk, Genealogy, StoreOk;
    AdvancedMeans(w, base, q);
    PruneUnfolds(q, event);
    WalkHeights(w, base, q);
    var r, height := Prune(q, event).0, FullWalk(q)[5].index;
    forall id | id in q.store && id.index >= height ensures id in r.store {
      StoreKept(q, height, FullWalk(q)[6..], r.store, id);
    }
    PrunedRanked(w, q.store, base, q.forks, q.canonical, height);
    PruneKeeps(w, base, q, height, r);
    ClosedKept(w, q.store, r.store, base, height);
  }

  /** The same walk in the store of a placed header: the new canonical fork and nothing below. */
  lemma GrownWalk(w: ParentOf, p: Pool, h: BlockHeader)
    requires Genealogy(w) && WellFormed(w, h) && Steady(w, p) && Places(p, h) && h.parent in p.store
    requires Root(Canonical(After(p, h))) == Root(Canonical(p))
    ensures Descends(After(p, h).store) && Canonical(After(p, h)) != []
    ensures Walk(After(p, h).store, Canonical(After(p, h))[0]) == Canonical(After(p, h))
  {
    SteadyHolds(w, p);
    assert h.parent == w(h.id);
    hide *;
    AfterKeeps(w, p, h);
    AdvancedMeans(w, Base(p), After(p, h));
    RootedKept(w, p, Root(Canonical(p)), h);
    WalkIsFork(w, After(p, h).store, Base(p), Canonical(After(p, h)));
  }

  /** What a step with an event makes of a steady pool. */
  lemma EventfulPool(w: ParentOf, p: Pool, h: BlockHeader) returns (event: BlockchainEvent)
    requires Genealogy(w) && WellFormed(w, h) && Steady(w, p) && Descends(p.store[h.id := h]) && Process(p, h).event.Some?
    ensures Places(p, h) && Root(Canonical(After(p, h))) == Root(Canonical(p)) && Canonical(After(p, h)) != Canonical(p)
    ensures Advanced(w, Base(p), After(p, h)) && Descends(After(p, h).store) && EndsAtTip(After(p, h), event)
    ensures After(p, h).orphans == {} && Process(p, h).pool == Prune(After(p, h), event).0
    ensures After(p, h).store == p.store[h.id := h] && !Process(p, h).diverged
  {
    SteadyHolds(w, p);
    hide *;
    NoEventIff(w, p, h);
    ProcessCases(p, h);
    AfterKeeps(w, p, h);
    NothingWaits(p, h);
    var q := After(p, h);
    AdvancedMeans(w, Base(p), q);
    Concluded(w, Base(p), q, p.canonical, Canonical(p));
    AtMostSix(w, p);
    EventAtTip(w, Base(p), q, Canonical(p));
    event := GenerateEvent(Canonical(q), Canonical(p), q.store).value;
  }

  lemma NothingWaits(p: Pool, h: BlockHeader)
    requires p.orphans == {} && Places(p, h)
    ensures After(p, h).orphans == {}
  {
    hide After, Place;
    PlacedIn(p.forks, h);
    CleanAfter(p, h, Select(Place(p.forks, h).value.forks));
  }

  /** Over every steady pool and every gated block with an event: the pool stays steady. */
  lemma SteadyStep(w: ParentOf, p: Pool, h: BlockHeader)
    requires Genealogy(w) && WellFormed(w, h) && Steady(w, p) && Descends(p.store[h.id := h])
    requires h.parent in p.store && Process(p, h).event.Some?
    ensures Steady(w, Process(p, h).pool)
    ensures Process(p, h).pool.store.Keys <= p.store.Keys + {h.id}
  {
    hide Process, Prune, After, Places, Linked, Genealogy, Settled, IsLongest, Rooted, ClosedAbove, Root, Follow, Describes, Walk;
    SteadyHolds(w, p);
    var event := EventfulPool(w, p, h);
    StepSettled(w, p, h);
    StepNotEmpty(w, p, h);
    StoredClosed(w, p, h);
    PruneSteady(w, Base(p), After(p, h), event);
    ConserveStep(w, p, h, Canonical(p), []);
    var grown, i, j := StepMeaning(w, p, h);
  }

  lemma StoredClosed(w: ParentOf, p: Pool, h: BlockHeader)
    requires p.canonical in p.forks && ClosedAbove(w, p.store, Base(p)) && h.parent in p.store && h.parent == w(h.id)
    ensures ClosedAbove(w, p.store[h.id := h], Base(p))
  {
  }

  lemma FirstSteady(w: ParentOf, h: BlockHeader)
    requires Genealogy(w) && WellFormed(w, h)
    ensures Descends(EMPTY_POOL.store[h.id := h])
    ensures Process(EMPTY_POOL, h).event.Some? && Steady(w, Process(EMPTY_POOL, h).pool)
  {
    hide Process, Settled, Linked, Rooted, Genealogy;
    FirstStep(w, h);
    FirstConserve(w, h);
  }

  // ------------------------------------------------- where the tip goes next

  lemma TipKept(w: ParentOf, p: Pool, h: BlockHeader)
    requires Genealogy(w) && WellFormed(w, h) && Steady(w, p) && Descends(p.store[h.id := h]) && Process(p, h).event.Some?
    requires p.canonical in p.forks && Places(p, h) && Canonical(After(p, h)) != []
    ensures var q := Process(p, h).pool;
      && q.canonical in q.forks && Canonical(q) != [] && Canonical(q)[0] == Canonical(After(p, h))[0]
      && Canonical(q)[0] in q.store
  {
    SteadyHolds(w, p);
    hide Process, After, Place, Places, Linked, Genealogy, Settled, Steady, Rooted, IsLongest;
    EventNoDivergence(p, h);
    TipAfterStep(w, p, h);
    StepNotEmpty(w, p, h);
    SettledHolds(w, Process(p, h).pool);
    TipStored(w, Process(p, h).pool);
  }

  lemma TipStored(w: ParentOf, q: Pool)
    requires Settled(w, q) && q.canonical in q.forks && Canonical(q) != []
    ensures Canonical(q)[0] in q.store
  {
    assert ForkOk(w, q.store, Base(q), Canonical(q));
  }

  /** A displacing step leaves no fork longer than six blocks. */
  lemma DisplacedShort(w: ParentOf, p: Pool, h: BlockHeader)
    requires Genealogy(w) && WellFormed(w, h) && Settled(w, p) && Places(p, h) && Displaces(p, h)
    ensures forall k :: k in Place(p.forks, h).value.forks ==> |Place(p.forks, h).value.forks[k]| <= 6
  {
    hide Append, Linked, Genealogy;
    var k := Least(AcceptingForks(p.forks, h));
    assert ForkOk(w, p.store, Base(p), p.forks[k]);
    AppendMeaning(w, p.forks[k], h);
  }

  /** When the updated fork has the canonical key but not the canonical tip below it, it displaces. */
  lemma UpdatedCanonical(w: ParentOf, p: Pool, h: BlockHeader)
    requires Genealogy(w) && WellFormed(w, h) && Settled(w, p) && Places(p, h) && Canonical(p) != []
    requires Place(p.forks, h).value.updated == p.canonical && h.parent != Canonical(p)[0]
    ensures Displaces(p, h)
  {
    hide Append, Linked, Genealogy;
    var k := Least(AcceptingForks(p.forks, h));
    assert ForkOk(w, p.store, Base(p), p.forks[k]);
    AppendMeaning(w, p.forks[k], h);
  }

  lemma DisplacedWhole(w: ParentOf, p: Pool, h: BlockHeader)
    requires Genealogy(w) && WellFormed(w, h) && Steady(w, p) && Descends(p.store[h.id := h]) && Process(p, h).event.Some?
    requires h.parent in p.store && Displaces(p, h)
    ensures Process(p, h).pool == After(p, h) && After(p, h).store == p.store[h.id := h]
  {
    SteadyHolds(w, p);
    hide Process, After, Place, Linked, Genealogy, Settled, Steady, Rooted, IsLongest, Prune, Displaces, Root, Walk, Descends;
    hide EndsAtTip, Advanced, LeftOver;
    var event := EventfulPool(w, p, h);
    DisplacedShort(w, p, h);
    PlacedIn(p.forks, h);
    CleanAfter(p, h, Select(Place(p.forks, h).value.forks));
    GrownWalk(w, p, h);
    PrunesOnLength(After(p, h), event);
    PruneUnfolds(After(p, h), event);
  }

  /**
    After a step with an event the header is stored, and it is the canonical
    tip unless it displaced the canonical fork.
   */
  lemma SpokenTip(w: ParentOf, p: Pool, h: BlockHeader)
    requires Genealogy(w) && WellFormed(w, h) && Steady(w, p) && Descends(p.store[h.id := h]) && Process(p, h).event.Some?
    requires h.parent in p.store
    ensures var q := Process(p, h).pool;
      && q.canonical in q.forks && Canonical(q) != [] && h.id in q.store
      && (Canonical(q)[0] == h.id || (Displaces(p, h) && q == After(p, h)))
  {
    SteadyHolds(w, p);
    hide Process, After, Place, Linked, Genealogy, Settled, Steady, Rooted, IsLongest, Prune, Displaces, Root, Walk, Descends, Silent;
    var event := EventfulPool(w, p, h);
    SilentIff(w, p, h);
    GrownWalk(w, p, h);
    TipKept(w, p, h);
    if Place(p.forks, h).value.updated != p.canonical {
      SilentElsewhere(w, p, h);
    } else if h.parent == Canonical(p)[0] {
      TipSpeaks(w, p, h);
    } else {
      UpdatedCanonical(w, p, h);
      DisplacedWhole(w, p, h);
    }
  }
}
