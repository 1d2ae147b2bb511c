/**
  When the caller of the pool gives up: exactly when the lowest block it
  fetched has no event, or when that block displaces the canonical fork and
  the block on top of it has none.
 */
module GivingUp {
  import opened Wrappers
  import opened BlockTypes
  import opened SegmentProperties
  import opened ChainSegments
  import opened PoolSteps
  import opened PoolInvariants
  import opened PoolRuns
  import opened PoolGuarantees
  import opened PoolLimits
  import opened TidyPools
  import opened SteadyPools
  import opened PoolConsumer

  function Header(w: ParentOf, id: BlockIdentifier): BlockHeader {
    BlockHeader(id, w(id))
  }

  // ------------------------------------------------------------- ancestors

  /** A block and the ancestors above the `n`-th, lowest first. */
  ghost function Ladder(w: ParentOf, id: BlockIdentifier, n: nat): seq<BlockIdentifier> {
    if n == 0 then [] else [Back(w, id, n - 1)] + Ladder(w, id, n - 1)
  }

  /** The block and its `k` nearest ancestors are blocks. */
  ghost predicate Apart(w: ParentOf, id: BlockIdentifier, k: nat) {
    forall j :: 0 <= j <= k ==> Back(w, id, j) != NULL_ID
  }

  /** None of the `k` nearest ancestors is stored. */
  ghost predicate Missing(w: ParentOf, store: HeadersStore, id: BlockIdentifier, k: nat) {
    Apart(w, id, k) && forall j :: 1 <= j <= k ==> Back(w, id, j) !in store
  }

  lemma {:induction false} BackIndex(w: ParentOf, id: BlockIdentifier, k: nat)
    requires Genealogy(w) && Apart(w, id, k)
    ensures Back(w, id, k).index == id.index - k
  {
    if k > 0 {
      BackIndex(w, id, k - 1);
      assert Back(w, id, k) != NULL_ID;
    }
  }

  lemma {:induction false} LadderBlocks(w: ParentOf, id: BlockIdentifier, n: nat)
    requires n > 0 ==> Apart(w, id, n - 1)
    ensures NULL_ID !in Ladder(w, id, n)
  {
    if n > 0 {
      LadderBlocks(w, id, n - 1);
      assert Back(w, id, n - 1) != NULL_ID;
    }
  }

  lemma SteadyInvariant(w: ParentOf, p: Pool)
    requires Steady(w, p)
    ensures Invariant(w, p) && p.store != map[]
  {
    SteadyHolds(w, p);
  }

  // ------------------------------------------------------------ one announcement

  /** One round of the caller's loop on a block whose parent is stored. */
  lemma Round(w: ParentOf, p: Pool, ids: seq<BlockIdentifier>, downloads: nat)
    requires Genealogy(w) && Steady(w, p) && Invariant(w, p) && NULL_ID !in ids && ids != [] && w(ids[0]) in p.store
    ensures Descends(p.store[ids[0] := Header(w, ids[0])])
    ensures var r := Process(p, Header(w, ids[0]));
      && (r.event == None <==> Silent(p, Header(w, ids[0])))
      && (r.event == None ==> AdvancePool(w, p, ids, downloads).outcome == UnableToAppend)
      && (r.event.Some? ==>
            && Steady(w, r.pool) && Invariant(w, r.pool) && r.pool.store.Keys <= p.store.Keys + {ids[0]}
            && AdvancePool(w, p, ids, downloads).outcome == AdvancePool(w, r.pool, ids[1..], downloads).outcome)
  {
    hide Process, Steady, Invariant, Silent, Next, Genealogy, Descends;
    var h := Header(w, ids[0]);
    SilentIff(w, p, h);
    AnnounceIs(w, p, ids[0]);
    hide Announce;
    if Process(p, h).event.Some? {
      SteadyStep(w, p, h);
      SteadyInvariant(w, Process(p, h).pool);
    }
  }

  /** The canonical tip is the `n`-th ancestor, and nothing above it is stored. */
  ghost predicate Mounted(w: ParentOf, q: Pool, id: BlockIdentifier, n: nat) {
    && Steady(w, q) && Apart(w, id, n) && (forall j :: 0 <= j < n ==> Back(w, id, j) !in q.store)
    && q.canonical in q.forks && Canonical(q) != [] && Canonical(q)[0] == Back(w, id, n)
  }

  lemma MountedNext(w: ParentOf, q: Pool, id: BlockIdentifier, n: nat)
    requires Genealogy(w) && Mounted(w, q, id, n) && n > 0
    ensures WellFormed(w, Header(w, Back(w, id, n - 1))) && Canonical(q) != []
    ensures Back(w, id, n - 1) !in q.store && w(Back(w, id, n - 1)) == Canonical(q)[0] && Canonical(q)[0] in q.store
  {
    hide Steady, Genealogy;
    assert Back(w, id, n) == w(Back(w, id, n - 1));
    assert Settled(w, q) by { SteadyHolds(w, q); }
    hide Settled;
    TipStored(w, q);
  }

  /** A block on the canonical tip is announced, and is the tip afterwards. */
  lemma Mounts(w: ParentOf, q: Pool, h: BlockHeader)
    requires Genealogy(w) && WellFormed(w, h) && Steady(w, q) && q.canonical in q.forks && Canonical(q) != []
    requires h.parent == Canonical(q)[0] && h.parent in q.store && h.id !in q.store
    ensures !Silent(q, h) && Descends(q.store[h.id := h]) && Process(q, h).event.Some?
    ensures var r := Process(q, h).pool;
      Steady(w, r) && r.canonical in r.forks && Canonical(r) != [] && Canonical(r)[0] == h.id && r.store.Keys <= q.store.Keys + {h.id}
  {
    hide *;
    SilentIff(w, q, h);
    TipSpeaks(w, q, h);
    SteadyStep(w, q, h);
    EventfulAfter(w, q, h);
    TipKept(w, q, h);
  }

  lemma EventfulAfter(w: ParentOf, q: Pool, h: BlockHeader)
    requires Genealogy(w) && WellFormed(w, h) && Steady(w, q) && Places(q, h)
    ensures Canonical(After(q, h)) != []
  {
    hide After, Genealogy, Rooted, ClosedAbove, Linked, Places, IsLongest;
    AfterKeeps(w, q, h);
  }

  lemma StillFresh(w: ParentOf, store: HeadersStore, left: HeadersStore, id: BlockIdentifier, n: nat)
    requires Genealogy(w) && Apart(w, id, n) && n > 0 && (forall j :: 0 <= j < n ==> Back(w, id, j) !in store)
    requires left.Keys <= store.Keys + {Back(w, id, n - 1)}
    ensures forall j :: 0 <= j < n - 1 ==> Back(w, id, j) !in left
  {
    forall j | 0 <= j < n - 1 ensures Back(w, id, j) !in left {
      BackIndex(w, id, j);
      BackIndex(w, id, n - 1);
    }
  }

  lemma MountedStep(w: ParentOf, q: Pool, id: BlockIdentifier, n: nat)
    requires Genealogy(w) && Mounted(w, q, id, n) && n > 0
    ensures var h := Header(w, Back(w, id, n - 1));
      Descends(q.store[h.id := h]) && Process(q, h).event.Some? && Mounted(w, Process(q, h).pool, id, n - 1)
  {
    hide Process, Steady, Silent, Genealogy, Back, Descends;
    MountedNext(w, q, id, n);
    var h := Header(w, Back(w, id, n - 1));
    Mounts(w, q, h);
    StillFresh(w, q.store, Process(q, h).pool.store, id, n);
  }

  /** With the canonical tip below them, the remaining blocks all have an event. */
  lemma {:induction false} Climb(w: ParentOf, q: Pool, id: BlockIdentifier, n: nat, downloads: nat)
    requires Genealogy(w) && Mounted(w, q, id, n)
    ensures Invariant(w, q) && NULL_ID !in Ladder(w, id, n)
    ensures AdvancePool(w, q, Ladder(w, id, n), downloads).outcome == Done
    decreases n
  {
    hide *;
    MountedMeans(w, q, id, n);
    if n == 0 {
      NothingLeft(w, q, id, downloads);
    } else {
      LadderTop(w, id, n);
      MountedNext(w, q, id, n);
      MountedStep(w, q, id, n);
      Round(w, q, Ladder(w, id, n), downloads);
      Climb(w, Process(q, Header(w, Back(w, id, n - 1))).pool, id, n - 1, downloads);
    }
  }

  lemma NothingLeft(w: ParentOf, q: Pool, id: BlockIdentifier, downloads: nat)
    requires Genealogy(w) && Invariant(w, q)
    ensures AdvancePool(w, q, Ladder(w, id, 0), downloads) == Advance(q, [], Done)
  {
    hide Invariant, Genealogy, Announce;
  }

  lemma LadderTop(w: ParentOf, id: BlockIdentifier, n: nat)
    requires n > 0
    ensures Ladder(w, id, n) != [] && Ladder(w, id, n)[0] == Back(w, id, n - 1) && Ladder(w, id, n)[1..] == Ladder(w, id, n - 1)
    ensures w(Back(w, id, n - 1)) == Back(w, id, n)
  {
  }

  lemma MountedMeans(w: ParentOf, q: Pool, id: BlockIdentifier, n: nat)
    requires Mounted(w, q, id, n)
    ensures Steady(w, q) && Invariant(w, q) && NULL_ID !in Ladder(w, id, n) && (n > 0 ==> Ladder(w, id, n) != [])
  {
    hide Steady, Invariant;
    SteadyInvariant(w, q);
    LadderBlocks(w, id, n);
  }

  // -------------------------------------------- above a block that displaced

  /** The displacing fork is the only one that holds its block, and it is not canonical. */
  lemma DisplacingFork(w: ParentOf, p: Pool, l: BlockHeader, m: BlockHeader)
    requires Genealogy(w) && WellFormed(w, l) && WellFormed(w, m) && Steady(w, p) && Places(p, l)
    requires After(p, l).canonical in After(p, l).forks && Canonical(After(p, l)) != [] && Canonical(After(p, l))[0] != l.id
    requires m.parent == l.id && m.id !in After(p, l).store
    ensures var q, u := After(p, l), Place(p.forks, l).value.updated;
      && OnlyParent(w, q.store, Base(p), q.forks, m, u) && u != q.canonical
      && q.forks[u] != [] && q.forks[u][0] == m.parent
  {
    hide Place, Linked, Genealogy, Rooted, ClosedAbove, IsLongest, StoreOk;
    PlacedShape(w, p, l);
    PlacedIn(p.forks, l);
    CleanAfter(p, l, Select(Place(p.forks, l).value.forks));
    AfterKeeps(w, p, l);
    var q, u := After(p, l), Place(p.forks, l).value.updated;
    forall j | j in q.forks && j != u ensures l.id !in q.forks[j] {
      assert ForkOk(w, p.store, Base(p), p.forks[j]);
    }
    StoredBlocks(w, q.store, Base(p), q.forks, m.id);
  }

  lemma StoredBlocks(w: ParentOf, store: HeadersStore, base: nat, forks: Forks, id: BlockIdentifier)
    requires ForksOk(w, store, base, forks) && id !in store
    ensures id !in Blocks(forks)
  {
    forall k | k in forks ensures id !in forks[k] {
      assert ForkOk(w, store, base, forks[k]);
    }
  }

  /** A block on top of a displacing one either has no event or becomes the tip. */
  lemma AboveDisplacing(w: ParentOf, p: Pool, l: BlockHeader, m: BlockHeader)
    requires Genealogy(w) && WellFormed(w, l) && WellFormed(w, m) && Steady(w, p) && Places(p, l)
    requires Steady(w, After(p, l)) && Canonical(After(p, l)) != [] && Canonical(After(p, l))[0] != l.id
    requires m.parent == l.id && m.id !in After(p, l).store && !Silent(After(p, l), m)
    ensures Places(After(p, l), m) && Canonical(After(After(p, l), m)) != [] && Canonical(After(After(p, l), m))[0] == m.id
  {
    SteadyHolds(w, After(p, l));
    hide After, Place, Genealogy, Steady, OnlyParent, IsLongest;
    var q, u := After(p, l), Place(p.forks, l).value.updated;
    DisplacingFork(w, p, l, m);
    assert u in q.forks by { OnlyIn(w, q.store, Base(p), q.forks, m, u); }
    Extends(w, q.store, Base(p), q.forks, m, u);
    EventfulAfter(w, q, m);
    SilentElsewhere(w, q, m);
  }

  lemma OnlyIn(w: ParentOf, store: HeadersStore, base: nat, forks: Forks, h: BlockHeader, k: nat)
    requires OnlyParent(w, store, base, forks, h, k)
    ensures k in forks
  {
  }

  // ------------------------------------------------------------ the condition

  /**
    The `k`-th ancestor is the lowest block fetched.  Either it has no event
    itself, or it displaces the canonical fork and the next block has none.
   */
  ghost predicate TurnedDown(w: ParentOf, p: Pool, id: BlockIdentifier, k: nat) {
    var lowest := Header(w, Back(w, id, k));
    || Silent(p, lowest)
    || (k > 0 && Places(p, lowest) && Displaces(p, lowest) && Silent(After(p, lowest), Header(w, Back(w, id, k - 1))))
  }

  /** Nothing up to the `k`-th ancestor is stored, and the next one is. */
  ghost predicate Meets(w: ParentOf, store: HeadersStore, id: BlockIdentifier, k: nat) {
    Missing(w, store, id, k) && Back(w, id, k + 1) in store
  }

  /** No fork takes a block that lies too low. */
  lemma TooLow(w: ParentOf, p: Pool, h: BlockHeader)
    requires Genealogy(w) && WellFormed(w, h) && Settled(w, p) && h.parent.index < Base(p)
    ensures !Places(p, h)
  {
    hide Append, Linked, Genealogy;
    NothingLower(w, p.store, Base(p), p.forks, h.parent);
    forall k | k in p.forks ensures Append(p.forks[k], h) == Refused {
      assert ForkOk(w, p.store, Base(p), p.forks[k]);
      AppendMeaning(w, p.forks[k], h);
    }
  }

  /** When the arriving block itself is stored, the lowest block fetched has no event. */
  lemma KnownIsSilent(w: ParentOf, p: Pool, id: BlockIdentifier, k: nat)
    requires Genealogy(w) && Steady(w, p) && Meets(w, p.store, id, k) && k > 0 && id in p.store
    ensures Silent(p, Header(w, Back(w, id, k)))
  {
    hide Rooted, Linked, IsLongest, ForksOk, Place;
    assert Back(w, id, 1) !in p.store && Back(w, id, 1) == w(id);
    assert id.index <= Base(p);
    assert StoreOk(w, p.store);
    assert Back(w, id, k + 1) != NULL_ID && Back(w, id, k + 1) == w(Back(w, id, k)) && Back(w, id, k) != NULL_ID;
    BackIndex(w, id, k);
    hide Settled;
    TooLow(w, p, Header(w, Back(w, id, k)));
  }

  lemma MeetsMeans(w: ParentOf, p: Pool, id: BlockIdentifier, k: nat)
    requires Genealogy(w) && Steady(w, p) && Meets(w, p.store, id, k)
    ensures Apart(w, id, k) && WellFormed(w, Header(w, Back(w, id, k))) && Header(w, Back(w, id, k)).parent in p.store
    ensures w(Back(w, id, k)) in p.store && NULL_ID !in Ladder(w, id, k + 1)
    ensures !Silent(p, Header(w, Back(w, id, k))) ==> forall j :: 0 <= j < k ==> Back(w, id, j) !in p.store
    ensures !Silent(p, Header(w, Back(w, id, k))) ==> Places(p, Header(w, Back(w, id, k)))
  {
    hide Steady, Genealogy, Places;
    LadderBlocks(w, id, k + 1);
    assert Back(w, id, k + 1) == w(Back(w, id, k));
    assert Back(w, id, 0) == id;
    if k > 0 && id in p.store {
      KnownIsSilent(w, p, id, k);
    }
  }

  /** After the lowest block: it is the tip, or it displaced the canonical fork. */
  lemma AfterLowest(w: ParentOf, p: Pool, id: BlockIdentifier, k: nat)
    requires Genealogy(w) && Steady(w, p) && Meets(w, p.store, id, k) && !Silent(p, Header(w, Back(w, id, k)))
    ensures var l := Header(w, Back(w, id, k));
      && Descends(p.store[l.id := l]) && Process(p, l).event.Some?
      && var q := Process(p, l).pool;
         && Steady(w, q) && l.id in q.store && (forall j :: 0 <= j < k ==> Back(w, id, j) !in q.store)
         && (Displaces(p, l) ==> q == After(p, l))
         && q.canonical in q.forks && Canonical(q) != []
         && (Canonical(q)[0] == l.id ==> Mounted(w, q, id, k))
         && (Canonical(q)[0] != l.id ==> Displaces(p, l))
  {
    var l := Header(w, Back(w, id, k));
    MeetsMeans(w, p, id, k);
    hide Process, Steady, Silent, Genealogy, Back, Descends, After, Displaces, Places, Meets;
    SilentIff(w, p, l);
    SteadyStep(w, p, l);
    SpokenTip(w, p, l);
    if Displaces(p, l) {
      DisplacedWhole(w, p, l);
    }
    var left := Process(p, l).pool.store;
    forall j | 0 <= j < k ensures Back(w, id, j) !in left {
      BackIndex(w, id, j);
      BackIndex(w, id, k);
    }
  }

  /** The block above the lowest one, when that one displaced the canonical fork. */
  lemma SecondRound(w: ParentOf, p: Pool, id: BlockIdentifier, k: nat, downloads: nat)
    requires Genealogy(w) && Steady(w, p) && Meets(w, p.store, id, k) && k > 0
    requires Places(p, Header(w, Back(w, id, k))) && !Silent(p, Header(w, Back(w, id, k)))
    requires var q := After(p, Header(w, Back(w, id, k)));
      && Steady(w, q) && Invariant(w, q) && (forall j :: 0 <= j < k ==> Back(w, id, j) !in q.store)
      && Back(w, id, k) in q.store && Canonical(q) != [] && Canonical(q)[0] != Back(w, id, k)
    ensures NULL_ID !in Ladder(w, id, k)
    ensures var q := After(p, Header(w, Back(w, id, k)));
      AdvancePool(w, q, Ladder(w, id, k), downloads).outcome
      == if Silent(q, Header(w, Back(w, id, k - 1))) then UnableToAppend else Done
  {
    hide *;
    var l, m := Header(w, Back(w, id, k)), Header(w, Back(w, id, k - 1));
    var q := After(p, l);
    SteadyHolds(w, q);
    MeetsMeans(w, p, id, k);
    NextUp(w, p.store, id, k);
    LadderTop(w, id, k);
    Round(w, q, Ladder(w, id, k), downloads);
    if !Silent(q, m) {
      AboveDisplacing(w, p, l, m);
      TipKept(w, q, m);
      StillFresh(w, q.store, Process(q, m).pool.store, id, k);
      MountedBy(w, Process(q, m).pool, id, k - 1);
      Climb(w, Process(q, m).pool, id, k - 1, downloads);
    }
  }

  lemma NextUp(w: ParentOf, store: HeadersStore, id: BlockIdentifier, k: nat)
    requires Genealogy(w) && Meets(w, store, id, k) && k > 0
    ensures NULL_ID !in Ladder(w, id, k) && WellFormed(w, Header(w, Back(w, id, k - 1))) && Apart(w, id, k - 1)
    ensures Header(w, Back(w, id, k - 1)).parent == Back(w, id, k)
    ensures Header(w, Back(w, id, k - 1)).id == Back(w, id, k - 1) && Header(w, Back(w, id, k)).id == Back(w, id, k)
  {
    LadderBlocks(w, id, k);
  }

  lemma MountedBy(w: ParentOf, q: Pool, id: BlockIdentifier, n: nat)
    requires Steady(w, q) && Apart(w, id, n) && (forall j :: 0 <= j < n ==> Back(w, id, j) !in q.store)
    requires q.canonical in q.forks && Canonical(q) != [] && Canonical(q)[0] == Back(w, id, n)
    ensures Mounted(w, q, id, n)
  {
    hide Steady;
  }

  /** Once the parent of the lowest block is stored: the caller gives up exactly when it is turned down. */
  lemma Rungs(w: ParentOf, p: Pool, id: BlockIdentifier, k: nat, downloads: nat)
    requires Genealogy(w) && Steady(w, p) && Invariant(w, p) && Meets(w, p.store, id, k) && NULL_ID !in Ladder(w, id, k + 1)
    ensures AdvancePool(w, p, Ladder(w, id, k + 1), downloads).outcome
            == if TurnedDown(w, p, id, k) then UnableToAppend else Done
  {
    hide *;
    var l := Header(w, Back(w, id, k));
    MeetsMeans(w, p, id, k);
    LadderTop(w, id, k + 1);
    HeaderIs(w, Back(w, id, k));
    TurnedDownMeans(w, p, id, k);
    Round(w, p, Ladder(w, id, k + 1), downloads);
    if !Silent(p, l) {
      AfterLowest(w, p, id, k);
      var q := Process(p, l).pool;
      if k == 0 {
        NothingLeft(w, q, id, downloads);
      } else if Canonical(q)[0] == l.id {
        Climb(w, q, id, k, downloads);
        MountedNext(w, q, id, k);
        HeaderIs(w, Back(w, id, k - 1));
        Mounts(w, q, Header(w, Back(w, id, k - 1)));
      } else {
        SecondRound(w, p, id, k, downloads);
      }
    }
  }

  lemma HeaderIs(w: ParentOf, id: BlockIdentifier)
    ensures Header(w, id).id == id && Header(w, id).parent == w(id)
  {
  }

  lemma TurnedDownMeans(w: ParentOf, p: Pool, id: BlockIdentifier, k: nat)
    requires !Silent(p, Header(w, Back(w, id, k))) ==> Places(p, Header(w, Back(w, id, k)))
    ensures var l := Header(w, Back(w, id, k));
      TurnedDown(w, p, id, k) <==>
        Silent(p, l) || (k > 0 && Places(p, l) && Displaces(p, l) && Silent(After(p, l), Header(w, Back(w, id, k - 1))))
  {
    hide Silent, Places, Displaces, After, Back;
  }

  // ---------------------------------------------------------------- fetching

  lemma {:induction false} FetchesDown(w: ParentOf, p: Pool, id: BlockIdentifier, k: nat, downloads: nat)
    requires Genealogy(w) && Invariant(w, p) && p.store != map[] && Missing(w, p.store, id, k) && k <= downloads
    ensures NULL_ID !in Ladder(w, id, 1) && NULL_ID !in Ladder(w, id, k + 1)
    ensures AdvancePool(w, p, Ladder(w, id, 1), downloads) == AdvancePool(w, p, Ladder(w, id, k + 1), downloads - k)
    decreases k
  {
    hide Invariant, Genealogy, AdvancePool;
    LadderBlocks(w, id, 1);
    LadderBlocks(w, id, k + 1);
    if k > 0 {
      assert Missing(w, p.store, id, k - 1);
      FetchesDown(w, p, id, k - 1, downloads);
      LadderTop(w, id, k);
      assert w(Back(w, id, k - 1)) !in p.store && w(Back(w, id, k - 1)) != NULL_ID;
      Fetches(w, p, Ladder(w, id, k), downloads - (k - 1));
      assert Ladder(w, id, k + 1) == [Back(w, id, k)] + Ladder(w, id, k);
    }
  }

  /** When the downloads do not reach a block whose parent is stored, they fail. */
  lemma {:induction false} FetchFails(w: ParentOf, p: Pool, id: BlockIdentifier, k: nat, downloads: nat)
    requires Genealogy(w) && Invariant(w, p) && p.store != map[] && Missing(w, p.store, id, k) && k <= downloads
    requires forall m :: k <= m <= downloads ==> !Meets(w, p.store, id, m)
    ensures NULL_ID !in Ladder(w, id, k + 1)
    ensures AdvancePool(w, p, Ladder(w, id, k + 1), downloads - k) == Advance(p, [], DownloadFailed)
    decreases downloads - k
  {
    hide Invariant, Genealogy, AdvancePool;
    LadderBlocks(w, id, k + 1);
    LadderTop(w, id, k + 1);
    assert !Meets(w, p.store, id, k);
    if k == downloads || Back(w, id, k + 1) == NULL_ID {
      CannotFetch(w, p, Ladder(w, id, k + 1), downloads - k);
    } else {
      assert Missing(w, p.store, id, k + 1);
      LadderBlocks(w, id, k + 2);
      Fetches(w, p, Ladder(w, id, k + 1), downloads - k);
      assert Ladder(w, id, k + 2) == [Back(w, id, k + 1)] + Ladder(w, id, k + 1);
      FetchFails(w, p, id, k + 1, downloads);
    }
  }

  lemma MeetsOnce(w: ParentOf, store: HeadersStore, id: BlockIdentifier, j: nat, k: nat)
    requires Meets(w, store, id, j) && Meets(w, store, id, k)
    ensures j == k
  {
  }

  lemma FirstBlock(w: ParentOf, id: BlockIdentifier, downloads: nat)
    requires Genealogy(w) && id != NULL_ID
    ensures AdvancePool(w, EMPTY_POOL, [id], downloads).outcome == Done
    ensures Healthy(w, AdvancePool(w, EMPTY_POOL, [id], downloads).pool)
  {
    hide Process, Steady, Announce, Genealogy, Descends;
    FirstSteady(w, Header(w, id));
    AnnounceIs(w, EMPTY_POOL, id);
    SteadyInvariant(w, Process(EMPTY_POOL, Header(w, id)).pool);
  }

  lemma LadderOne(w: ParentOf, id: BlockIdentifier)
    requires id != NULL_ID
    ensures Ladder(w, id, 1) == [id]
    ensures forall store: HeadersStore :: Missing(w, store, id, 0)
  {
    assert Back(w, id, 0) == id;
  }

  lemma HealthyInvariant(w: ParentOf, p: Pool)
    requires Healthy(w, p)
    ensures Invariant(w, p)
    ensures p != EMPTY_POOL ==> Steady(w, p) && p.store != map[]
  {
    hide Steady, Settled;
    if p != EMPTY_POOL {
      SteadyInvariant(w, p);
    }
  }

  /** The lowest block that can be fetched within the allowed downloads is turned down. */
  ghost predicate Rejects(w: ParentOf, p: Pool, id: BlockIdentifier, downloads: nat) {
    exists k :: 0 <= k <= downloads && Meets(w, p.store, id, k) && TurnedDown(w, p, id, k)
  }

  /** Some ancestor can be fetched whose parent is stored. */
  ghost predicate Connects(w: ParentOf, store: HeadersStore, id: BlockIdentifier, downloads: nat) {
    exists k :: 0 <= k <= downloads && Meets(w, store, id, k)
  }

  lemma RejectsAt(w: ParentOf, p: Pool, id: BlockIdentifier, k: nat, downloads: nat)
    requires k <= downloads && Meets(w, p.store, id, k)
    ensures Connects(w, p.store, id, downloads)
    ensures Rejects(w, p, id, downloads) <==> TurnedDown(w, p, id, k)
  {
    hide Meets, TurnedDown;
    forall j | 0 <= j && Meets(w, p.store, id, j) ensures j == k {
      MeetsOnce(w, p.store, id, j, k);
    }
  }

  lemma NeverRejects(w: ParentOf, p: Pool, id: BlockIdentifier, downloads: nat)
    requires !Connects(w, p.store, id, downloads)
    ensures !Rejects(w, p, id, downloads)
    ensures forall m :: 0 <= m <= downloads ==> !Meets(w, p.store, id, m)
  {
    hide Meets, TurnedDown;
  }

  /**
    Exactly when the caller gives up on an arriving block, for every pool it
    can hold and any number of downloads that would work: the pool is not new,
    and the lowest block fetched is turned down.
   */
  lemma GivesUpIff(w: ParentOf, p: Pool, id: BlockIdentifier, downloads: nat)
    requires Genealogy(w) && Healthy(w, p) && id != NULL_ID
    ensures Invariant(w, p)
    ensures var outcome := AdvancePool(w, p, [id], downloads).outcome;
      && (outcome == UnableToAppend <==> p != EMPTY_POOL && Rejects(w, p, id, downloads))
      && (outcome == DownloadFailed <==> p != EMPTY_POOL && !Connects(w, p.store, id, downloads))
  {
    hide *;
    HealthyInvariant(w, p);
    if p == EMPTY_POOL {
      FirstBlock(w, id, downloads);
    } else {
      LadderOne(w, id);
      assert Missing(w, p.store, id, 0);
      if Connects(w, p.store, id, downloads) {
        var k := Connection(w, p.store, id, downloads);
        RejectsAt(w, p, id, k, downloads);
        FetchesDown(w, p, id, k, downloads);
        Rungs(w, p, id, k, downloads - k);
      } else {
        NeverRejects(w, p, id, downloads);
        FetchFails(w, p, id, 0, downloads);
      }
    }
  }

  lemma Connection(w: ParentOf, store: HeadersStore, id: BlockIdentifier, downloads: nat) returns (k: nat)
    requires Connects(w, store, id, downloads)
    ensures k <= downloads && Meets(w, store, id, k) && Missing(w, store, id, k)
  {
    k :| 0 <= k <= downloads && Meets(w, store, id, k);
  }

  // ---------------------------------------------------------------- the run loop

  /** An advance that does not give up leaves a healthy pool. */
  lemma {:induction false} AdvanceHealthy(w: ParentOf, p: Pool, ids: seq<BlockIdentifier>, downloads: nat)
    requires Genealogy(w) && Healthy(w, p) && Invariant(w, p) && NULL_ID !in ids
    ensures var a := AdvancePool(w, p, ids, downloads); a.outcome != UnableToAppend ==> Healthy(w, a.pool)
    decreases downloads, |ids|
  {
    hide Process, Next, Invariant, CanProcess, Healthy;
    if ids != [] {
      var h := BlockHeader(ids[0], w(ids[0]));
      if CanProcess(p, h) {
        var r := Announce(w, p, ids[0]);
        if r.event.Some? {
          HealthyStep(w, p, ids[0]);
          AdvanceHealthy(w, r.pool, ids[1..], downloads);
        }
      } else if downloads > 0 && h.parent != NULL_ID {
        AdvanceHealthy(w, p, [h.parent] + ids, downloads - 1);
      }
    }
  }

  lemma HealthyStep(w: ParentOf, p: Pool, id: BlockIdentifier)
    requires Genealogy(w) && Healthy(w, p) && Invariant(w, p) && id != NULL_ID
    requires CanProcess(p, BlockHeader(id, w(id))) && Announce(w, p, id).event.Some?
    ensures Healthy(w, Announce(w, p, id).pool)
  {
    hide Process, Next, Announce, Invariant, Steady, Genealogy, Descends;
    var h := BlockHeader(id, w(id));
    HealthyInvariant(w, p);
    AnnounceIs(w, p, id);
    if p == EMPTY_POOL {
      FirstSteady(w, h);
    } else {
      SteadyStep(w, p, h);
    }
  }

  /** The block started a fork under the key of the canonical fork, which is lost. */
  ghost predicate DisplacedBy(w: ParentOf, p: Pool, id: BlockIdentifier, q: Pool) {
    && Steady(w, p) && Displaces(p, Header(w, id)) && Places(p, Header(w, id)) && q == After(p, Header(w, id))
  }

  /** The block is stored, and it is the canonical tip unless it displaced the canonical fork. */
  ghost predicate Landed(w: ParentOf, q: Pool, id: BlockIdentifier) {
    && q.canonical in q.forks && Canonical(q) != [] && id in q.store
    && (Canonical(q)[0] == id || exists p :: DisplacedBy(w, p, id, q))
  }

  lemma StepLands(w: ParentOf, p: Pool, id: BlockIdentifier)
    requires Genealogy(w) && Healthy(w, p) && Invariant(w, p) && id != NULL_ID
    requires CanProcess(p, Header(w, id)) && Announce(w, p, id).event.Some?
    ensures Landed(w, Announce(w, p, id).pool, id)
  {
    hide Process, Next, Announce, Invariant, Steady, Genealogy, Descends, Settled, Displaces, Places, After;
    var h := Header(w, id);
    HealthyInvariant(w, p);
    AnnounceIs(w, p, id);
    if p == EMPTY_POOL {
      FirstStep(w, h);
    } else {
      SpokenTip(w, p, h);
      var event := EventfulPool(w, p, h);
      var q := Process(p, h).pool;
      if Canonical(q)[0] != id {
        assert DisplacedBy(w, p, id, q);
      }
    }
  }

  /** An arrival the caller has done with has landed in the pool, however many blocks had to be fetched for it. */
  lemma {:induction false} DoneLands(w: ParentOf, p: Pool, ids: seq<BlockIdentifier>, downloads: nat)
    requires Genealogy(w) && Healthy(w, p) && Invariant(w, p) && NULL_ID !in ids && ids != []
    ensures var a := AdvancePool(w, p, ids, downloads); a.outcome == Done ==> Landed(w, a.pool, ids[|ids| - 1])
    decreases downloads, |ids|
  {
    hide Process, Next, Announce, Invariant, CanProcess, Healthy, Landed, Genealogy;
    var h := Header(w, ids[0]);
    if CanProcess(p, h) {
      var r := Announce(w, p, ids[0]);
      if r.event.Some? {
        if |ids| == 1 {
          StepLands(w, p, ids[0]);
        } else {
          HealthyStep(w, p, ids[0]);
          DoneLands(w, r.pool, ids[1..], downloads);
        }
      }
    } else if downloads > 0 && h.parent != NULL_ID {
      DoneLands(w, p, [h.parent] + ids, downloads - 1);
    }
  }

  lemma ServedTip(w: ParentOf, q: Pool, chain: seq<BlockIdentifier>)
    requires Serves(w, q, chain) && q.canonical in q.forks && Canonical(q) != []
    ensures chain != [] && chain[0] == Canonical(q)[0]
  {
    hide Invariant, Linked, Conserved;
    var confirmed :| Agrees(w, q, chain, confirmed);
    assert InStep(w, q, chain);
  }

  /**
    An indexer that serves the pool before an arrival can obey every command,
    and when the caller is done the block that arrived is the last one it has
    indexed, unless the block displaced the canonical fork.
   */
  lemma ArrivalIndexed(w: ParentOf, p: Pool, id: BlockIdentifier, downloads: nat, chain: seq<BlockIdentifier>)
    requires Genealogy(w) && Healthy(w, p) && Invariant(w, p) && id != NULL_ID && Serves(w, p, chain)
    ensures var a := AdvancePool(w, p, [id], downloads);
      && ObeyAll(chain, Commands(a.events)).Some?
      && (a.outcome == Done ==>
            && id in a.pool.store && ObeyAll(chain, Commands(a.events)).value != []
            && (ObeyAll(chain, Commands(a.events)).value[0] == id || exists before :: DisplacedBy(w, before, id, a.pool)))
  {
    hide AdvancePool, Invariant, Healthy, Genealogy, Agrees, FollowAll, ObeyAll, Commands, ConfirmedAll, DisplacedBy;
    var confirmed :| Agrees(w, p, chain, confirmed);
    var a := AdvancePool(w, p, [id], downloads);
    AdvanceAgrees(w, p, [id], downloads, chain, confirmed);
    CommandsFollow(chain, a.events);
    if a.outcome == Done {
      DoneLands(w, p, [id], downloads);
      ServedTip(w, a.pool, ObeyAll(chain, Commands(a.events)).value);
    }
  }

  /** Every pool at which a block arrives is healthy. */
  lemma {:induction false} RunLoopHealthy(w: ParentOf, p: Pool, blocks: seq<(BlockIdentifier, nat)>)
    requires Genealogy(w) && Healthy(w, p) && Invariant(w, p) && forall i :: 0 <= i < |blocks| ==> blocks[i].0 != NULL_ID
    ensures RunLoop(w, p, blocks).outcome != UnableToAppend ==> Healthy(w, RunLoop(w, p, blocks).pool)
    decreases |blocks|
  {
    hide AdvancePool, Invariant, Healthy;
    if blocks != [] {
      var a := AdvancePool(w, p, [blocks[0].0], blocks[0].1);
      AdvanceInvariant(w, p, [blocks[0].0], blocks[0].1);
      AdvanceHealthy(w, p, [blocks[0].0], blocks[0].1);
      if a.outcome == Done {
        RunLoopHealthy(w, a.pool, blocks[1..]);
      }
    }
  }

  /** One more arrival after a run of the loop that has not ended. */
  lemma {:induction false} RunLoopSnoc(w: ParentOf, p: Pool, blocks: seq<(BlockIdentifier, nat)>, id: BlockIdentifier, downloads: nat)
    requires Genealogy(w) && Invariant(w, p) && (forall i :: 0 <= i < |blocks| ==> blocks[i].0 != NULL_ID) && id != NULL_ID
    requires RunLoop(w, p, blocks).outcome == Done
    ensures var q, all := RunLoop(w, p, blocks).pool, RunLoop(w, p, blocks + [(id, downloads)]);
      && Invariant(w, q)
      && all.outcome == AdvancePool(w, q, [id], downloads).outcome && all.pool == AdvancePool(w, q, [id], downloads).pool
      && all.events == RunLoop(w, p, blocks).events + AdvancePool(w, q, [id], downloads).events
    decreases |blocks|
  {
    hide AdvancePool, Invariant;
    var all := blocks + [(id, downloads)];
    if blocks == [] {
      assert all == [(id, downloads)];
      AdvanceInvariant(w, p, [id], downloads);
    } else {
      var a := AdvancePool(w, p, [blocks[0].0], blocks[0].1);
      AdvanceInvariant(w, p, [blocks[0].0], blocks[0].1);
      assert all[1..] == blocks[1..] + [(id, downloads)];
      RunLoopSnoc(w, a.pool, blocks[1..], id, downloads);
    }
  }

  lemma NewPoolHealthy(w: ParentOf)
    ensures Healthy(w, EMPTY_POOL) && Invariant(w, EMPTY_POOL)
  {
  }

  /**
    From a new pool, after any arrivals that all succeeded: the next one ends
    the loop without an event exactly when the pool reached turns it down.
   */
  lemma RunGivesUpIff(w: ParentOf, blocks: seq<(BlockIdentifier, nat)>, id: BlockIdentifier, downloads: nat)
    requires Genealogy(w) && (forall i :: 0 <= i < |blocks| ==> blocks[i].0 != NULL_ID) && id != NULL_ID
    requires Invariant(w, EMPTY_POOL) && RunLoop(w, EMPTY_POOL, blocks).outcome == Done
    ensures forall i :: 0 <= i < |blocks| + 1 ==> (blocks + [(id, downloads)])[i].0 != NULL_ID
    ensures var p := RunLoop(w, EMPTY_POOL, blocks).pool;
      RunLoop(w, EMPTY_POOL, blocks + [(id, downloads)]).outcome == UnableToAppend
      <==> p != EMPTY_POOL && Rejects(w, p, id, downloads)
  {
    hide *;
    NewPoolHealthy(w);
    RunLoopHealthy(w, EMPTY_POOL, blocks);
    RunLoopSnoc(w, EMPTY_POOL, blocks, id, downloads);
    GivesUpIff(w, RunLoop(w, EMPTY_POOL, blocks).pool, id, downloads);
  }

  // ------------------------------------------------------ a branch off a line

  /** One fork and nothing else. */
  function Line(w: ParentOf, s: seq<BlockIdentifier>): Pool {
    Tidy(w, 0, map[0 := s])
  }

  /** The blocks of a line arrive oldest first, with nothing to fetch. */
  function Arrivals(s: seq<BlockIdentifier>): (r: seq<(BlockIdentifier, nat)>)
    ensures NULL_ID !in s ==> forall i :: 0 <= i < |r| ==> r[i].0 != NULL_ID
  {
    if s == [] then [] else Arrivals(s[1..]) + [(s[0], 0)]
  }

  lemma LineBlocks(s: seq<BlockIdentifier>)
    ensures forall id :: id in Blocks(map[0 := s]) <==> id in s
  {
    assert 0 in map[0 := s];
  }

  lemma LineLeads(w: ParentOf, s: seq<BlockIdentifier>)
    requires Genealogy(w) && Linked(w, s) && |s| > 1 && Settled(w, Line(w, s[1..]))
    ensures WellFormed(w, Header(w, s[0])) && Leads(w, 0, map[0 := s[1..]], Header(w, s[0]), map[0 := s], 0)
  {
    hide Settled, Place, Genealogy, ForksOk, Blocks;
    assert w(s[0]) == s[1];
    assert Linked(w, s);
    hide Linked;
    var h, forks := Header(w, s[0]), map[0 := s[1..]];
    LineBlocks(s);
    LineBlocks(s[1..]);
    NotBelowItself(w, s);
    TidyForks(w, 0, forks);
    var p := Line(w, s[1..]);
    assert [s[0]] + s[1..] == s;
    assert forks[0 := s] == map[0 := s];
    Extends(w, p.store, Base(p), forks, h, 0);
  }

  lemma NotBelowItself(w: ParentOf, s: seq<BlockIdentifier>)
    requires Linked(w, s) && s != []
    ensures s[0] !in s[1..]
  {
  }

  lemma LineGrows(w: ParentOf, s: seq<BlockIdentifier>)
    requires Genealogy(w) && Linked(w, s) && 1 < |s| <= 6 && Settled(w, Line(w, s[1..]))
    ensures var p, h := Line(w, s[1..]), Header(w, s[0]);
      && Descends(p.store[h.id := h]) && h.parent in p.store
      && Process(p, h).event.Some? && Process(p, h).pool == Line(w, s)
  {
    hide *;
    LineLeads(w, s);
    LineFacts(w, s);
    Moves(w, 0, map[0 := s[1..]], Header(w, s[0]), map[0 := s], 0);
  }

  lemma LineFacts(w: ParentOf, s: seq<BlockIdentifier>)
    requires Linked(w, s) && 1 < |s| <= 6
    ensures Root(s) == Root(s[1..]) && LeftOver(map[0 := s], s) == map[0 := s] && s != s[1..]
    ensures Line(w, s) == Tidy(w, 0, map[0 := s]) && Line(w, s[1..]) == Tidy(w, 0, map[0 := s[1..]])
    ensures Header(w, s[0]).parent in Line(w, s[1..]).store
  {
    LineBlocks(s[1..]);
    assert w(s[0]) == s[1] && s[1] in s[1..];
    assert s[1] in Blocks(map[0 := s[1..]]);
    hide Linked, Blocks;
  }

  lemma OneArrival(w: ParentOf, p: Pool, id: BlockIdentifier, downloads: nat)
    requires Genealogy(w) && Invariant(w, p) && id != NULL_ID && CanProcess(p, Header(w, id)) && Descends(p.store[id := Header(w, id)])
    requires Process(p, Header(w, id)).event.Some?
    ensures AdvancePool(w, p, [id], downloads).outcome == Done
    ensures AdvancePool(w, p, [id], downloads).pool == Process(p, Header(w, id)).pool
    ensures AdvancePool(w, p, [id], downloads).events == [Process(p, Header(w, id)).event.value]
  {
    AnnounceIs(w, p, id);
    hide Process, Announce, Invariant, Genealogy, Descends, CanProcess;
  }

  lemma FirstOfLine(w: ParentOf, id: BlockIdentifier)
    requires Genealogy(w) && id != NULL_ID
    ensures Invariant(w, EMPTY_POOL) && CanProcess(EMPTY_POOL, Header(w, id)) && Descends(EMPTY_POOL.store[id := Header(w, id)])
    ensures Process(EMPTY_POOL, Header(w, id)).event.Some? && Process(EMPTY_POOL, Header(w, id)).pool == Line(w, [id])
  {
    hide Process, Settled;
    var h := Header(w, id);
    FirstStep(w, h);
    LineBlocks([id]);
    assert Blocks(map[0 := [id]]) == {id};
    assert StoreOf(w, {id}) == map[id := h];
  }

  lemma NoArrivals(w: ParentOf)
    requires Genealogy(w)
    ensures Invariant(w, EMPTY_POOL) && RunLoop(w, EMPTY_POOL, []) == Advance(EMPTY_POOL, [], Done)
  {
  }

  lemma ArrivalsEnd(s: seq<BlockIdentifier>)
    requires s != []
    ensures Arrivals(s) == Arrivals(s[1..]) + [(s[0], 0)]
  {
  }

  lemma LineMeans(w: ParentOf, s: seq<BlockIdentifier>)
    requires Linked(w, s)
    ensures NULL_ID !in s && (s != [] ==> Linked(w, s[1..]) && s[0] != NULL_ID && NULL_ID !in s[1..])
  {
  }

  /** Up to six linked blocks that arrive one by one are one fork. */
  lemma {:induction false} LineReached(w: ParentOf, s: seq<BlockIdentifier>)
    requires Genealogy(w) && Linked(w, s) && 1 <= |s| <= 6
    ensures Invariant(w, EMPTY_POOL) && NULL_ID !in s
    ensures RunLoop(w, EMPTY_POOL, Arrivals(s)).outcome == Done && RunLoop(w, EMPTY_POOL, Arrivals(s)).pool == Line(w, s)
    decreases |s|
  {
    hide *;
    LineMeans(w, s);
    NoArrivals(w);
    ArrivalsEnd(s);
    if |s| == 1 {
      assert s[1..] == [];
      assert s == [s[0]];
      FirstOfLine(w, s[0]);
      OneArrival(w, EMPTY_POOL, s[0], 0);
      ArrivalsNone();
      RunLoopSnoc(w, EMPTY_POOL, [], s[0], 0);
    } else {
      LineReached(w, s[1..]);
      LineHealthy(w, s[1..]);
      LineGrows(w, s);
      CanFollow(Line(w, s[1..]), Header(w, s[0]));
      HeaderIs(w, s[0]);
      OneArrival(w, Line(w, s[1..]), s[0], 0);
      RunLoopSnoc(w, EMPTY_POOL, Arrivals(s[1..]), s[0], 0);
    }
  }

  lemma ArrivalsNone()
    ensures Arrivals([]) == []
  {
  }

  lemma CanFollow(p: Pool, h: BlockHeader)
    requires h.parent in p.store
    ensures CanProcess(p, h)
  {
  }

  lemma LineHealthy(w: ParentOf, s: seq<BlockIdentifier>)
    requires Genealogy(w) && NULL_ID !in s && s != [] && Invariant(w, EMPTY_POOL)
    requires RunLoop(w, EMPTY_POOL, Arrivals(s)).outcome == Done && RunLoop(w, EMPTY_POOL, Arrivals(s)).pool == Line(w, s)
    ensures Steady(w, Line(w, s)) && Settled(w, Line(w, s)) && Invariant(w, Line(w, s)) && Line(w, s) != EMPTY_POOL
  {
    hide *;
    NewPoolHealthy(w);
    RunLoopHealthy(w, EMPTY_POOL, Arrivals(s));
    LineNotEmpty(w, s);
    HealthyInvariant(w, Line(w, s));
    SteadyHolds(w, Line(w, s));
  }

  lemma LineNotEmpty(w: ParentOf, s: seq<BlockIdentifier>)
    requires s != []
    ensures Line(w, s) != EMPTY_POOL
  {
    assert Line(w, s).forks[0] == s;
  }

  lemma LineShape(w: ParentOf, s: seq<BlockIdentifier>)
    requires s != []
    ensures var p := Line(w, s);
      && p.canonical == 0 && p.canonical in p.forks && Canonical(p) == s && p.forks == map[0 := s] && |p.forks| == 1
      && p == Tidy(w, 0, map[0 := s]) && p.store.Keys == Blocks(p.forks)
  {
    TidyKeys(w, 0, map[0 := s]);
    hide Blocks, StoreOf;
  }

  lemma OnlyFork(w: ParentOf, store: HeadersStore, base: nat, s: seq<BlockIdentifier>, h: BlockHeader)
    requires Genealogy(w) && WellFormed(w, h) && ForksOk(w, store, base, map[0 := s]) && h.parent in s && h.id !in s
    ensures OnlyParent(w, store, base, map[0 := s], h, 0)
  {
    LineBlocks(s);
    hide ForksOk, Genealogy, Blocks;
  }

  lemma LineOnly(w: ParentOf, s: seq<BlockIdentifier>, i: nat, h: BlockHeader)
    requires Genealogy(w) && WellFormed(w, h) && Settled(w, Line(w, s)) && Line(w, s).canonical in Line(w, s).forks
    requires i < |s| && h.parent == s[i] && h.id !in s
    ensures var p := Line(w, s); OnlyParent(w, p.store, Base(p), map[0 := s], h, 0) && h.id !in p.store
  {
    hide *;
    LineBlocks(s);
    LineShape(w, s);
    TidyForks(w, 0, map[0 := s]);
    OnlyFork(w, Line(w, s).store, Base(Line(w, s)), s, h);
  }

  /** A block inside a line starts a second fork. */
  lemma LineBranches(w: ParentOf, s: seq<BlockIdentifier>, i: nat, h: BlockHeader)
    requires Genealogy(w) && WellFormed(w, h) && Settled(w, Line(w, s))
    requires 0 < i < |s| && h.parent == s[i] && h.id !in s
    ensures var p := Line(w, s);
      && Places(p, h) && Place(p.forks, h).value.updated == 1
      && Place(p.forks, h).value.forks == map[0 := s][1 := [h.id] + s[i..]]
  {
    hide *;
    var p := Line(w, s);
    LineShape(w, s);
    LineOnly(w, s, i, h);
    Branches(w, p.store, Base(p), map[0 := s], h, 0, i);
    SecondKey(s, [h.id] + s[i..]);
    PlacesBy(p, h);
  }

  lemma SecondKey(s: seq<BlockIdentifier>, fork: seq<BlockIdentifier>)
    ensures |map[0 as nat := s]| == 1 && WithBranch(map[0 := s], fork) == map[0 := s][1 := fork]
  {
  }

  lemma PlacesBy(p: Pool, h: BlockHeader)
    requires h.id !in p.store && p.canonical in p.forks && Place(p.forks, h).Some?
    ensures Places(p, h)
  {
  }

  lemma SilentByHeight(p: Pool, s: seq<BlockIdentifier>, i: nat, h: BlockHeader)
    requires p.canonical == 0 && p.canonical in p.forks && Canonical(p) == s && i < |s| && Places(p, h)
    requires Place(p.forks, h).value.updated == 1 && Place(p.forks, h).value.forks == map[0 := s][1 := [h.id] + s[i..]]
    ensures Silent(p, h) <==> h.id.index < s[0].index
  {
    hide Place, Places, Root;
    BranchRoot(s, i, h.id);
  }

  lemma LineHeight(w: ParentOf, s: seq<BlockIdentifier>, i: nat, h: BlockHeader)
    requires Genealogy(w) && WellFormed(w, h) && Linked(w, s) && i < |s| && h.parent == s[i]
    ensures h.id.index == s[0].index - i + 1
  {
    assert s[i] != NULL_ID && s[i].index == s[0].index - i;
  }

  /** On a line, only a block on the tip or on the block below it has an event. */
  lemma LineSilent(w: ParentOf, s: seq<BlockIdentifier>, i: nat, h: BlockHeader)
    requires Genealogy(w) && WellFormed(w, h) && Steady(w, Line(w, s)) && Linked(w, s)
    requires i < |s| && h.parent == s[i] && h.id !in s
    ensures Silent(Line(w, s), h) <==> i >= 2
  {
    hide *;
    var p := Line(w, s);
    LineShape(w, s);
    SteadyHolds(w, p);
    LineHeight(w, s, i, h);
    if i == 0 {
      LineBlocks(s);
      TipSpeaks(w, p, h);
    } else {
      LineBranches(w, s, i, h);
      SilentByHeight(p, s, i, h);
    }
  }

  lemma BranchRoot(s: seq<BlockIdentifier>, i: nat, id: BlockIdentifier)
    requires i < |s|
    ensures Root([id] + s[i..]) == Root(s)
  {
  }

  /**
    A branch of any length whose top arrives behind a line of up to six blocks:
    however long it is, the caller gives up exactly when the branch leaves the
    line two or more blocks below the tip.
   */
  lemma BranchGivenUpIff(w: ParentOf, s: seq<BlockIdentifier>, i: nat, id: BlockIdentifier, k: nat, downloads: nat)
    requires Genealogy(w) && Linked(w, s) && i < |s| <= 6 && id != NULL_ID && k <= downloads
    requires Apart(w, id, k) && (forall j :: 0 <= j <= k ==> Back(w, id, j) !in s) && Back(w, id, k + 1) == s[i]
    ensures Invariant(w, EMPTY_POOL) && forall j :: 0 <= j < |Arrivals(s)| + 1 ==> (Arrivals(s) + [(id, downloads)])[j].0 != NULL_ID
    ensures RunLoop(w, EMPTY_POOL, Arrivals(s) + [(id, downloads)]).outcome == UnableToAppend <==> i >= 2
  {
    hide *;
    LineMeets(w, s, i, id, k);
    LineReached(w, s);
    LineHealthy(w, s);
    LineShape(w, s);
    LineSilent(w, s, i, Header(w, Back(w, id, k)));
    LineTurnsDown(w, s, id, k);
    RejectsAt(w, Line(w, s), id, k, downloads);
    RunGivesUpIff(w, Arrivals(s), id, downloads);
  }

  lemma LineMeets(w: ParentOf, s: seq<BlockIdentifier>, i: nat, id: BlockIdentifier, k: nat)
    requires Genealogy(w) && Linked(w, s) && i < |s| && Apart(w, id, k)
    requires (forall j :: 0 <= j <= k ==> Back(w, id, j) !in s) && Back(w, id, k + 1) == s[i]
    ensures Meets(w, Line(w, s).store, id, k) && WellFormed(w, Header(w, Back(w, id, k)))
    ensures Header(w, Back(w, id, k)).parent == s[i] && Header(w, Back(w, id, k)).id !in s
    ensures NULL_ID !in s
  {
    LineBlocks(s);
    TidyKeys(w, 0, map[0 := s]);
    hide Linked, Genealogy, Blocks, StoreOf;
    LineMeans(w, s);
    assert Back(w, id, k) != NULL_ID && s[i] in s;
  }

  lemma LineTurnsDown(w: ParentOf, s: seq<BlockIdentifier>, id: BlockIdentifier, k: nat)
    requires s != []
    ensures TurnedDown(w, Line(w, s), id, k) <==> Silent(Line(w, s), Header(w, Back(w, id, k)))
  {
    LineShape(w, s);
    hide Silent, Places, After, StartsFork, Line;
  }
}