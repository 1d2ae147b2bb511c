/** When the canonical chain gets shorter: a new fork takes the key of the canonical one. */
module PoolLimits {
  import opened Wrappers
  import opened BlockTypes
  import opened ChainSegments
  import opened SegmentProperties
  import opened PoolSteps
  import opened PoolInvariants
  import opened PoolRuns

  /** Whether the header forks off a fork instead of growing one. */
  predicate StartsFork(forks: Forks, h: BlockHeader) {
    var accepting := AcceptingForks(forks, h);
    accepting != {} && Append(forks[Least(accepting)], h).Forked?
  }

  /** A new fork goes under the number of forks; when the canonical fork has that key, it is lost. */
  predicate Displaces(p: Pool, h: BlockHeader) {
    StartsFork(p.forks, h) && |p.forks| == p.canonical
  }

  /** Unless it is displaced, the canonical fork is still there after a placement, or has grown. */
  lemma CanonicalStays(w: ParentOf, store: HeadersStore, base: nat, forks: Forks, canonical: nat, h: BlockHeader)
    requires Genealogy(w) && WellFormed(w, h) && h.id in store && ForksOk(w, store, base, forks)
    requires canonical in forks && Place(forks, h).Some?
    requires !(StartsFork(forks, h) && |forks| == canonical)
    ensures canonical in Place(forks, h).value.forks
    ensures |Place(forks, h).value.forks[canonical]| >= |forks[canonical]|
  {
    hide Append, Linked, Genealogy;
    var k := Least(AcceptingForks(forks, h));
    assert ForkOk(w, store, base, forks[k]);
    AppendMeaning(w, forks[k], h);
  }

  lemma GrowLengthens(w: ParentOf, base: nat, placed: Placement, orphans: set<BlockIdentifier>, store: HeadersStore, k: nat)
    requires Genealogy(w) && StoreOk(w, store) && ForksOk(w, store, base, placed.forks)
    requires placed.updated in placed.forks && k in placed.forks
    ensures k in Grow(placed, orphans, store).0
    ensures |Grow(placed, orphans, store).0[k]| >= |placed.forks[k]|
  {
    hide ForkOk, Adopt, StoreOk, Genealogy;
    AdoptKeeps(w, base, Adoption(placed.forks[placed.updated], {}), InOrder(orphans), store);
  }

  /** Storing a header leaves the forks as well formed as they were. */
  lemma StoredForks(w: ParentOf, p: Pool, h: BlockHeader)
    requires Genealogy(w) && WellFormed(w, h) && Settled(w, p)
    ensures StoreOk(w, p.store[h.id := h]) && ForksOk(w, p.store[h.id := h], Base(p), p.forks)
  {
    hide Linked, Genealogy;
    forall k | k in p.forks ensures ForkOk(w, p.store[h.id := h], Base(p), p.forks[k]) {
      assert ForkOk(w, p.store, Base(p), p.forks[k]);
    }
  }

  lemma CanonicalGrows(w: ParentOf, p: Pool, h: BlockHeader)
    requires Genealogy(w) && WellFormed(w, h) && Settled(w, p) && Places(p, h) && !Displaces(p, h)
    ensures p.canonical in After(p, h).forks
    ensures |After(p, h).forks[p.canonical]| >= |Canonical(p)|
  {
    hide Place, Linked, Genealogy, Grow, IsLongest, StartsFork;
    var store := p.store[h.id := h];
    StoredForks(w, p, h);
    CanonicalStays(w, store, Base(p), p.forks, p.canonical, h);
    PlaceKeeps(w, store, Base(p), p.forks, h);
    GrowLengthens(w, Base(p), Place(p.forks, h).value, p.orphans, store, p.canonical);
  }

  /** The canonical fork and its tip after a step that does not diverge. */
  lemma TipAfterStep(w: ParentOf, p: Pool, h: BlockHeader)
    requires Genealogy(w) && WellFormed(w, h) && Settled(w, p)
    requires Descends(p.store[h.id := h]) && !Process(p, h).diverged
    ensures var q := Process(p, h).pool;
      && q.canonical in q.forks && Canonical(q) != [] && Canonical(p) != []
      && (!Places(p, h) ==> Canonical(q) == Canonical(p))
      && (Places(p, h) ==> Canonical(q) == Newest(Canonical(After(p, h))))
  {
    hide Process, Place, Places, After, Linked, Genealogy, Newest, ConfirmedBelow, Walk, Describes;
    assert ForkOk(w, p.store, Base(p), Canonical(p));
    ProcessCases(p, h);
    if Places(p, h) {
      AfterKeeps(w, p, h);
      Concluded(w, Base(p), After(p, h), p.canonical, Canonical(p));
      if Process(p, h).event == None {
        UnchangedStep(w, p, h);
      } else {
        var i, j := EventfulStep(w, p, h);
      }
    }
  }

  /**
    Over every settled pool and every step that does not diverge, the canonical
    tip gets lower exactly when the new fork displaces the canonical one and no
    fork is left that is as long.
   */
  lemma TipFallsIff(w: ParentOf, p: Pool, h: BlockHeader)
    requires Genealogy(w) && WellFormed(w, h) && Settled(w, p)
    requires Descends(p.store[h.id := h]) && !Process(p, h).diverged
    ensures var q := Process(p, h).pool;
      && q.canonical in q.forks && Canonical(q) != [] && Canonical(p) != []
      && (Canonical(q)[0].index < Canonical(p)[0].index <==>
            && Places(p, h) && Displaces(p, h)
            && forall k :: k in After(p, h).forks ==> |After(p, h).forks[k]| < |Canonical(p)|)
  {
    hide Process, Place, Places, After, Linked, Genealogy, Displaces, StoreOk, ForksOk;
    TipAfterStep(w, p, h);
    if Places(p, h) {
      AfterKeeps(w, p, h);
      TipHeight(w, Base(p), After(p, h).store, Canonical(p));
      TipHeight(w, Base(p), After(p, h).store, Canonical(After(p, h)));
      if !Displaces(p, h) {
        CanonicalGrows(w, p, h);
      }
    }
  }
}
