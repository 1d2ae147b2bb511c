/**
  When an arriving block stops the program: exactly when the fork selected for
  the lowest block fetched, or for the one above a block that displaced the
  canonical fork, brings back a block that was applied before.
 */
module KeptStops {
  import opened Wrappers
  import opened BlockTypes
  import opened ChainSegments
  import opened PoolSteps
  import opened PoolInvariants
  import opened PoolRuns
  import opened PoolGuarantees
  import opened PoolLimits
  import opened SteadyPools
  import opened PoolConsumer
  import opened GivingUp
  import opened KeptBlocks

  /** The fork selected for a header holds a block that was applied before and is not canonical now. */
  ghost predicate Revives(p: Pool, h: BlockHeader, done: set<BlockIdentifier>)
    requires Places(p, h)
  {
    exists b :: b in done && b in Canonical(After(p, h)) && b !in Canonical(p)
  }

  /** The lowest block fetched displaces the canonical fork, and the next one brings something back. */
  ghost predicate BringsBackAbove(w: ParentOf, p: Pool, done: set<BlockIdentifier>, id: BlockIdentifier, k: nat) {
    var lowest := Header(w, Back(w, id, k));
    && k > 0 && Places(p, lowest) && Displaces(p, lowest)
    && var q, next := After(p, lowest), Header(w, Back(w, id, k - 1));
       !Silent(q, next) && Places(q, next) && Revives(q, next, done)
  }

  /**
    The `k`-th ancestor is the lowest block fetched.  Its own fork brings a
    block back, or it displaces the canonical fork and that of the next block does.
   */
  ghost predicate BringsBack(w: ParentOf, p: Pool, done: set<BlockIdentifier>, id: BlockIdentifier, k: nat) {
    var lowest := Header(w, Back(w, id, k));
    !Silent(p, lowest) && Places(p, lowest) && (Revives(p, lowest, done) || BringsBackAbove(w, p, done, id, k))
  }

  lemma PlacesMeans(p: Pool, h: BlockHeader)
    requires Places(p, h)
    ensures p.canonical in p.forks && After(p, h).canonical in After(p, h).forks
  {
    hide Grown;
  }

  /** Taking out what an event applies fails exactly when its fork revives a block. */
  lemma TakeFailsIff(w: ParentOf, p: Pool, h: BlockHeader, kept: set<BlockIdentifier>, done: set<BlockIdentifier>)
    requires Genealogy(w) && WellFormed(w, h) && Steady(w, p) && Descends(p.store[h.id := h]) && Process(p, h).event.Some?
    requires h.parent in p.store && h.id in kept && Accounts(p, kept, done)
    ensures Places(p, h)
    ensures Take(kept, Applied(Process(p, h).event.value)).ok <==> !Revives(p, h, done)
  {
    hide *;
    SteadyHolds(w, p);
    AccountStep(w, p, h, kept, done);
    var ids := Applied(Process(p, h).event.value);
    EventApplies(w, p, h, h.id);
    PlacesMeans(p, h);
    forall b ensures b in Members(ids) <==> b in Canonical(After(p, h)) && b !in Canonical(p) {
      EventApplies(w, p, h, b);
      InMembers(ids, b);
    }
    RevivesIff(p, h, done, Members(ids));
  }

  lemma InMembers(ids: seq<BlockIdentifier>, b: BlockIdentifier)
    ensures b in Members(ids) <==> b in ids
  {
  }

  lemma RevivesIff(p: Pool, h: BlockHeader, done: set<BlockIdentifier>, applied: set<BlockIdentifier>)
    requires Places(p, h) && forall b :: b in applied <==> b in Canonical(After(p, h)) && b !in Canonical(p)
    ensures applied !! done <==> !Revives(p, h, done)
  {
    PlacesMeans(p, h);
    hide After, Places;
    if b :| b in applied && b in done {
      assert b in Canonical(After(p, h)) && b !in Canonical(p);
    }
  }

  // ---------------------------------------------------------- on the tip

  /** On the canonical tip a new block brings nothing back. */
  lemma TipRevivesNothing(w: ParentOf, p: Pool, h: BlockHeader, kept: set<BlockIdentifier>, done: set<BlockIdentifier>)
    requires Genealogy(w) && WellFormed(w, h) && Steady(w, p) && Canonical(p) != []
    requires h.parent == Canonical(p)[0] && h.parent in p.store && h.id !in p.store && Accounts(p, kept, done)
    ensures !Silent(p, h) && Descends(p.store[h.id := h]) && Process(p, h).event.Some? && Places(p, h)
    ensures !Revives(p, h, done)
  {
    hide Process, Steady, Silent, Places, After, Genealogy, Accounts, Descends;
    SteadyHolds(w, p);
    Mounts(w, p, h);
    TipSelected(w, p, h);
    NewBlock(w, p, h, kept, done);
    PlacesMeans(p, h);
    assert forall b :: b in [h.id] + Canonical(p) ==> b == h.id || b in Canonical(p);
  }

  /** With the canonical tip below them, the remaining blocks are all applied. */
  lemma {:induction false} ClimbKept(w: ParentOf, q: Pool, kept: set<BlockIdentifier>, done: set<BlockIdentifier>,
                                     id: BlockIdentifier, n: nat, downloads: nat)
    requires Genealogy(w) && Mounted(w, q, id, n) && Accounts(q, kept, done) && Members(Ladder(w, id, n)) <= kept
    ensures Invariant(w, q) && NULL_ID !in Ladder(w, id, n)
    ensures AdvanceKept(w, q, kept, Ladder(w, id, n), downloads).advance.outcome == Done
    decreases n
  {
    hide *;
    MountedMeans(w, q, id, n);
    if n == 0 {
      LadderNone(w, id);
      NoRound(w, q, kept, downloads);
    } else {
      var h := Header(w, Back(w, id, n - 1));
      LadderTop(w, id, n);
      MountedNext(w, q, id, n);
      HeaderIs(w, Back(w, id, n - 1));
      TipRevivesNothing(w, q, h, kept, done);
      MountedStep(w, q, id, n);
      LadderIn(w, id, n, kept);
      CanFollow(q, h);
      KeptRound(w, q, kept, Ladder(w, id, n), downloads);
      TakeFailsIff(w, q, h, kept, done);
      AccountStep(w, q, h, kept, done);
      var ids := Applied(Process(q, h).event.value);
      MountedFresh(w, q, id, n);
      LadderLeft(w, q, id, n, kept, Members(ids));
      MountedMeans(w, Process(q, h).pool, id, n - 1);
      ClimbKept(w, Process(q, h).pool, Take(kept, ids).left, done + Members(ids), id, n - 1, downloads);
      OutcomeKept(Process(q, h).event.value,
                  AdvanceKept(w, Process(q, h).pool, Take(kept, ids).left, Ladder(w, id, n - 1), downloads));
    }
  }

  lemma MountedFresh(w: ParentOf, q: Pool, id: BlockIdentifier, n: nat)
    requires Mounted(w, q, id, n) && n > 0
    ensures Apart(w, id, n) && Apart(w, id, n - 1) && forall j :: 0 <= j < n - 1 ==> Back(w, id, j) !in q.store
  {
    hide Steady;
  }

  lemma OutcomeKept(event: BlockchainEvent, k: Kept)
    ensures AnnouncedKept(event, k).advance.outcome == k.advance.outcome
  {
  }

  lemma LadderNone(w: ParentOf, id: BlockIdentifier)
    ensures Ladder(w, id, 0) == []
  {
  }

  lemma LadderIn(w: ParentOf, id: BlockIdentifier, n: nat, kept: set<BlockIdentifier>)
    requires n > 0 && Members(Ladder(w, id, n)) <= kept
    ensures Back(w, id, n - 1) in kept
  {
    assert Ladder(w, id, n)[0] in Ladder(w, id, n);
    assert Back(w, id, n - 1) in Members(Ladder(w, id, n));
  }

  lemma {:induction false} LadderMembers(w: ParentOf, id: BlockIdentifier, n: nat, b: BlockIdentifier)
    requires b in Ladder(w, id, n)
    ensures exists j :: 0 <= j < n && b == Back(w, id, j)
  {
    if b != Back(w, id, n - 1) {
      LadderMembers(w, id, n - 1, b);
    }
  }

  /** What a block applies is not among the blocks still waiting above it. */
  lemma LadderLeft(w: ParentOf, q: Pool, id: BlockIdentifier, n: nat, kept: set<BlockIdentifier>, gone: set<BlockIdentifier>)
    requires Genealogy(w) && n > 0 && Apart(w, id, n - 1) && Members(Ladder(w, id, n)) <= kept
    requires (forall j :: 0 <= j < n - 1 ==> Back(w, id, j) !in q.store) && gone <= q.store.Keys + {Back(w, id, n - 1)}
    ensures Members(Ladder(w, id, n - 1)) <= kept - gone
  {
    forall b | b in Members(Ladder(w, id, n - 1)) ensures b in kept - gone {
      LadderMembers(w, id, n - 1, b);
      var j :| 0 <= j < n - 1 && b == Back(w, id, j);
      BackIndex(w, id, j);
      BackIndex(w, id, n - 1);
      assert b in Ladder(w, id, n);
      assert b in Members(Ladder(w, id, n));
    }
  }

  // -------------------------------------------------------- rung by rung

  /** After the lowest block was applied: what is left in the store of blocks and what is accounted for. */
  lemma LowestTaken(w: ParentOf, p: Pool, kept: set<BlockIdentifier>, done: set<BlockIdentifier>, id: BlockIdentifier, k: nat)
    requires Genealogy(w) && Steady(w, p) && Meets(w, p.store, id, k) && !Silent(p, Header(w, Back(w, id, k)))
    requires Accounts(p, kept, done) && Members(Ladder(w, id, k + 1)) <= kept
    ensures var l := Header(w, Back(w, id, k));
      && Descends(p.store[l.id := l]) && Process(p, l).event.Some? && Places(p, l)
      && var r, taking := Process(p, l), Take(kept, Applied(Process(p, l).event.value));
         && (taking.ok <==> !Revives(p, l, done))
         && (taking.ok ==>
               && Accounts(r.pool, taking.left, done + Members(Applied(r.event.value)))
               && Members(Ladder(w, id, k)) <= taking.left)
  {
    hide *;
    var l := Header(w, Back(w, id, k));
    HeaderIs(w, Back(w, id, k));
    MeetsMeans(w, p, id, k);
    AfterLowest(w, p, id, k);
    LadderIn(w, id, k + 1, kept);
    TakeFailsIff(w, p, l, kept, done);
    AccountStep(w, p, l, kept, done);
    FreshBelow(w, p, id, k);
    LadderLeft(w, p, id, k + 1, kept, Members(Applied(Process(p, l).event.value)));
  }

  lemma FreshBelow(w: ParentOf, p: Pool, id: BlockIdentifier, k: nat)
    requires Genealogy(w) && Steady(w, p) && Meets(w, p.store, id, k) && !Silent(p, Header(w, Back(w, id, k)))
    ensures Apart(w, id, k) && forall j :: 0 <= j < k ==> Back(w, id, j) !in p.store
  {
    hide *;
    MeetsMeans(w, p, id, k);
  }

  /** Nothing is revived by the next block unless the lowest one displaced the canonical fork. */
  lemma SecondOnTip(w: ParentOf, q: Pool, kept: set<BlockIdentifier>, done: set<BlockIdentifier>, more: set<BlockIdentifier>,
                    id: BlockIdentifier, k: nat)
    requires Genealogy(w) && Mounted(w, q, id, k) && k > 0 && Accounts(q, kept, done + more)
    ensures var m := Header(w, Back(w, id, k - 1)); Places(q, m) && !Revives(q, m, done)
  {
    hide *;
    var m := Header(w, Back(w, id, k - 1));
    HeaderIs(w, Back(w, id, k - 1));
    MountedMeans(w, q, id, k);
    MountedNext(w, q, id, k);
    TipRevivesNothing(w, q, m, kept, done + more);
    RevivesLess(q, m, done, more);
  }

  lemma RevivesLess(q: Pool, m: BlockHeader, done: set<BlockIdentifier>, more: set<BlockIdentifier>)
    requires Places(q, m) && !Revives(q, m, done + more)
    ensures !Revives(q, m, done)
  {
    PlacesMeans(q, m);
    hide After, Places;
    forall b | b in done ensures b in done + more {
    }
  }

  /** What the step before applied is canonical now, so it is not brought back. */
  lemma RevivesSame(q: Pool, m: BlockHeader, done: set<BlockIdentifier>, more: set<BlockIdentifier>)
    requires Places(q, m) && q.canonical in q.forks && forall b :: b in more ==> b in Canonical(q)
    ensures Revives(q, m, done + more) <==> Revives(q, m, done)
  {
    PlacesMeans(q, m);
    hide After, Places;
    if Revives(q, m, done) {
      var b :| b in done && b in Canonical(After(q, m)) && b !in Canonical(q);
      assert b in done + more;
    }
    if Revives(q, m, done + more) {
      var b :| b in done + more && b in Canonical(After(q, m)) && b !in Canonical(q);
      assert b in done;
    }
  }

  /** The block above one that displaced the canonical fork. */
  lemma SecondKept(w: ParentOf, p: Pool, q: Pool, kept: set<BlockIdentifier>, done: set<BlockIdentifier>, more: set<BlockIdentifier>,
                   id: BlockIdentifier, k: nat, downloads: nat)
    requires Genealogy(w) && Steady(w, p) && Meets(w, p.store, id, k) && k > 0
    requires Places(p, Header(w, Back(w, id, k))) && !Silent(p, Header(w, Back(w, id, k)))
    requires q == After(p, Header(w, Back(w, id, k))) && Steady(w, q) && Invariant(w, q)
    requires (forall j :: 0 <= j < k ==> Back(w, id, j) !in q.store) && Back(w, id, k) in q.store
    requires q.canonical in q.forks && Canonical(q) != [] && Canonical(q)[0] != Back(w, id, k)
    requires Accounts(q, kept, done + more) && Members(Ladder(w, id, k)) <= kept && forall b :: b in more ==> b in Canonical(q)
    ensures NULL_ID !in Ladder(w, id, k)
    ensures var m := Header(w, Back(w, id, k - 1));
      AdvanceKept(w, q, kept, Ladder(w, id, k), downloads).advance.outcome == Stopped
      <==> !Silent(q, m) && Places(q, m) && Revives(q, m, done)
  {
    hide *;
    var l, m := Header(w, Back(w, id, k)), Header(w, Back(w, id, k - 1));
    MeetsMeans(w, p, id, k);
    NextUp(w, p.store, id, k);
    LadderTop(w, id, k);
    LadderIn(w, id, k, kept);
    CanFollow(q, m);
    SilentIff(w, q, m);
    KeptRound(w, q, kept, Ladder(w, id, k), downloads);
    if !Silent(q, m) {
      TakeFailsIff(w, q, m, kept, done + more);
      RevivesSame(q, m, done, more);
      if !Revives(q, m, done) {
        AboveDisplacing(w, p, l, m);
        TipKept(w, q, m);
        AccountStep(w, q, m, kept, done + more);
        SteadyStep(w, q, m);
        StillFresh(w, q.store, Process(q, m).pool.store, id, k);
        MountedBy(w, Process(q, m).pool, id, k - 1);
        var ids := Applied(Process(q, m).event.value);
        Shorter(w, q.store, id, k);
        LadderLeft(w, q, id, k, kept, Members(ids));
        MountedMeans(w, Process(q, m).pool, id, k - 1);
        ClimbKept(w, Process(q, m).pool, Take(kept, ids).left, done + more + Members(ids), id, k - 1, downloads);
        OutcomeKept(Process(q, m).event.value,
                    AdvanceKept(w, Process(q, m).pool, Take(kept, ids).left, Ladder(w, id, k - 1), downloads));
      }
    }
  }

  lemma Shorter(w: ParentOf, store: HeadersStore, id: BlockIdentifier, k: nat)
    requires k > 0 && forall j :: 0 <= j < k ==> Back(w, id, j) !in store
    ensures forall j :: 0 <= j < k - 1 ==> Back(w, id, j) !in store
  {
  }

  /** Once the parent of the lowest block is stored: the program stops exactly when something is brought back. */
  lemma RungsKept(w: ParentOf, p: Pool, kept: set<BlockIdentifier>, done: set<BlockIdentifier>, id: BlockIdentifier, k: nat,
                  downloads: nat)
    requires Genealogy(w) && Steady(w, p) && Invariant(w, p) && Meets(w, p.store, id, k) && NULL_ID !in Ladder(w, id, k + 1)
    requires Accounts(p, kept, done) && Members(Ladder(w, id, k + 1)) <= kept
    ensures AdvanceKept(w, p, kept, Ladder(w, id, k + 1), downloads).advance.outcome == Stopped <==> BringsBack(w, p, done, id, k)
  {
    hide *;
    var l := Header(w, Back(w, id, k));
    MeetsMeans(w, p, id, k);
    LadderTop(w, id, k + 1);
    LadderIn(w, id, k + 1, kept);
    HeaderIs(w, Back(w, id, k));
    CanFollow(p, l);
    SilentIff(w, p, l);
    KeptRound(w, p, kept, Ladder(w, id, k + 1), downloads);
    BringsBackMeans(w, p, done, id, k);
    if !Silent(p, l) {
      LowestTaken(w, p, kept, done, id, k);
      AfterLowest(w, p, id, k);
      if !Revives(p, l, done) {
        LowestApplied(w, p, id, k);
        RungsAbove(w, p, Take(kept, Applied(Process(p, l).event.value)).left, done, id, k, downloads);
        OutcomeKept(Process(p, l).event.value,
                    AdvanceKept(w, Process(p, l).pool, Take(kept, Applied(Process(p, l).event.value)).left, Ladder(w, id, k), downloads));
      }
    }
  }

  lemma BringsBackMeans(w: ParentOf, p: Pool, done: set<BlockIdentifier>, id: BlockIdentifier, k: nat)
    requires !Silent(p, Header(w, Back(w, id, k))) ==> Places(p, Header(w, Back(w, id, k)))
    ensures var l := Header(w, Back(w, id, k));
      BringsBack(w, p, done, id, k) <==>
        !Silent(p, l) && (Revives(p, l, done) || BringsBackAbove(w, p, done, id, k))
  {
    hide Silent, Places, Revives, BringsBackAbove, Back;
  }

  /** What the lowest block applied is canonical afterwards when nothing was pruned. */
  lemma LowestApplied(w: ParentOf, p: Pool, id: BlockIdentifier, k: nat)
    requires Genealogy(w) && Steady(w, p) && Meets(w, p.store, id, k) && !Silent(p, Header(w, Back(w, id, k)))
    requires Descends(p.store[Back(w, id, k) := Header(w, Back(w, id, k))])
    requires Process(p, Header(w, Back(w, id, k))).event.Some?
    ensures var l := Header(w, Back(w, id, k));
      && Places(p, l) && After(p, l).canonical in After(p, l).forks
      && forall b :: b in Members(Applied(Process(p, l).event.value)) ==> b in Canonical(After(p, l))
  {
    hide *;
    var l := Header(w, Back(w, id, k));
    HeaderIs(w, Back(w, id, k));
    MeetsMeans(w, p, id, k);
    SteadyHolds(w, p);
    PlacesMeans(p, l);
    var ids := Applied(Process(p, l).event.value);
    forall b | b in Members(ids) ensures b in Canonical(After(p, l)) {
      InMembers(ids, b);
      EventApplies(w, p, l, b);
    }
  }

  /** The blocks above the lowest one, after it was applied. */
  lemma RungsAbove(w: ParentOf, p: Pool, left: set<BlockIdentifier>, done: set<BlockIdentifier>, id: BlockIdentifier, k: nat,
                   downloads: nat)
    requires Genealogy(w) && Steady(w, p) && Meets(w, p.store, id, k) && !Silent(p, Header(w, Back(w, id, k)))
    requires Descends(p.store[Back(w, id, k) := Header(w, Back(w, id, k))])
    requires Process(p, Header(w, Back(w, id, k))).event.Some?
    requires var l := Header(w, Back(w, id, k));
      && Places(p, l) && After(p, l).canonical in After(p, l).forks
      && (forall b :: b in Members(Applied(Process(p, l).event.value)) ==> b in Canonical(After(p, l)))
      && Accounts(Process(p, l).pool, left, done + Members(Applied(Process(p, l).event.value)))
      && Members(Ladder(w, id, k)) <= left
    ensures Invariant(w, Process(p, Header(w, Back(w, id, k))).pool) && NULL_ID !in Ladder(w, id, k)
    ensures AdvanceKept(w, Process(p, Header(w, Back(w, id, k))).pool, left, Ladder(w, id, k), downloads).advance.outcome == Stopped
            <==> BringsBackAbove(w, p, done, id, k)
  {
    hide *;
    var l := Header(w, Back(w, id, k));
    HeaderIs(w, Back(w, id, k));
    var q, more := Process(p, l).pool, Members(Applied(Process(p, l).event.value));
    MeetsMeans(w, p, id, k);
    AfterLowest(w, p, id, k);
    SteadyInvariant(w, q);
    AboveMeans(w, p, done, id, k);
    if Canonical(q)[0] == l.id {
      ClimbKept(w, q, left, done + more, id, k, downloads);
      if k > 0 {
        SecondOnTip(w, q, left, done, more, id, k);
      }
    } else if k == 0 {
      LadderNone(w, id);
      NoRound(w, q, left, downloads);
    } else {
      SecondKept(w, p, q, left, done, more, id, k, downloads);
    }
  }

  lemma AboveMeans(w: ParentOf, p: Pool, done: set<BlockIdentifier>, id: BlockIdentifier, k: nat)
    requires Places(p, Header(w, Back(w, id, k)))
    ensures var l := Header(w, Back(w, id, k));
      BringsBackAbove(w, p, done, id, k) <==>
        k > 0 && Displaces(p, l)
        && var q, m := After(p, l), Header(w, Back(w, id, k - 1)); !Silent(q, m) && Places(q, m) && Revives(q, m, done)
  {
    hide Silent, Places, Displaces, Revives, After, Back;
  }

  // ---------------------------------------------------------------- fetching

  lemma {:induction false} FetchesKept(w: ParentOf, p: Pool, kept: set<BlockIdentifier>, id: BlockIdentifier, k: nat, downloads: nat)
    requires Genealogy(w) && Invariant(w, p) && p.store != map[] && Missing(w, p.store, id, k) && k <= downloads && id in kept
    ensures NULL_ID !in Ladder(w, id, 1) && NULL_ID !in Ladder(w, id, k + 1)
    ensures AdvanceKept(w, p, kept, Ladder(w, id, 1), downloads)
         == AdvanceKept(w, p, kept + Members(Ladder(w, id, k + 1)), Ladder(w, id, k + 1), downloads - k)
    decreases k
  {
    hide *;
    MissingLess(w, p.store, id, k);
    if k == 0 {
      OnlySelf(w, id);
      assert kept + {id} == kept;
    } else {
      FetchesKept(w, p, kept, id, k - 1, downloads);
      LadderTop(w, id, k);
      LadderGrows(w, id, k);
      HeaderIs(w, Back(w, id, k - 1));
      NotStored(p, Header(w, Back(w, id, k - 1)));
      KeptFetch(w, p, kept + Members(Ladder(w, id, k)), Ladder(w, id, k), downloads - (k - 1));
      assert kept + Members(Ladder(w, id, k)) + {Back(w, id, k)} == kept + (Members(Ladder(w, id, k)) + {Back(w, id, k)});
    }
  }

  lemma MissingLess(w: ParentOf, store: HeadersStore, id: BlockIdentifier, k: nat)
    requires Missing(w, store, id, k)
    ensures NULL_ID !in Ladder(w, id, 1) && NULL_ID !in Ladder(w, id, k + 1)
    ensures k > 0 ==> Missing(w, store, id, k - 1) && Back(w, id, k) !in store && Back(w, id, k) != NULL_ID
  {
    LadderBlocks(w, id, 1);
    LadderBlocks(w, id, k + 1);
  }

  lemma OnlySelf(w: ParentOf, id: BlockIdentifier)
    ensures Members(Ladder(w, id, 1)) == {id}
  {
    assert Ladder(w, id, 1) == [id];
  }

  lemma LadderGrows(w: ParentOf, id: BlockIdentifier, k: nat)
    requires k > 0
    ensures Ladder(w, id, k + 1) == [Back(w, id, k)] + Ladder(w, id, k)
    ensures Members(Ladder(w, id, k + 1)) == Members(Ladder(w, id, k)) + {Back(w, id, k)}
    ensures Back(w, id, k - 1) in Members(Ladder(w, id, k))
  {
    assert Ladder(w, id, k)[0] == Back(w, id, k - 1);
    forall b ensures b in Ladder(w, id, k + 1) <==> b == Back(w, id, k) || b in Ladder(w, id, k) {
      var s := Ladder(w, id, k + 1);
      assert s == [s[0]] + Ladder(w, id, k);
    }
  }

  lemma NotStored(p: Pool, h: BlockHeader)
    requires p.store != map[] && h.parent !in p.store
    ensures !CanProcess(p, h)
  {
  }

  lemma AccountAll(w: ParentOf, p: Pool, kept: set<BlockIdentifier>, done: set<BlockIdentifier>, id: BlockIdentifier, k: nat)
    requires Accounts(p, kept, done) && Missing(w, p.store, id, k) && id !in p.store
    ensures Accounts(p, kept + {id} + Members(Ladder(w, id, k + 1)), done)
  {
    hide Base;
    forall b | b in Members(Ladder(w, id, k + 1)) ensures b !in p.store {
      LadderMembers(w, id, k + 1, b);
      var j :| 0 <= j < k + 1 && b == Back(w, id, j);
      BackZero(w, id);
    }
  }

  // ------------------------------------------------------------- the result

  /** The lowest block that can be fetched within the allowed downloads brings something back. */
  ghost predicate Repeats(w: ParentOf, p: Pool, done: set<BlockIdentifier>, id: BlockIdentifier, downloads: nat) {
    exists k :: 0 <= k <= downloads && Meets(w, p.store, id, k) && BringsBack(w, p, done, id, k)
  }

  lemma RepeatsAt(w: ParentOf, p: Pool, done: set<BlockIdentifier>, id: BlockIdentifier, k: nat, downloads: nat)
    requires k <= downloads && Meets(w, p.store, id, k)
    ensures Repeats(w, p, done, id, downloads) <==> BringsBack(w, p, done, id, k)
  {
    hide Meets, BringsBack;
    forall j | 0 <= j && Meets(w, p.store, id, j) ensures j == k {
      MeetsOnce(w, p.store, id, j, k);
    }
  }

  lemma NeverRepeats(w: ParentOf, p: Pool, done: set<BlockIdentifier>, id: BlockIdentifier, downloads: nat)
    requires !Connects(w, p.store, id, downloads)
    ensures !Repeats(w, p, done, id, downloads)
  {
    hide Meets, BringsBack;
  }

  lemma NewNeverConnects(w: ParentOf, id: BlockIdentifier, downloads: nat)
    ensures !Connects(w, EMPTY_POOL.store, id, downloads)
  {
  }

  lemma TellsNotStopped(done: set<BlockIdentifier>, a: Advance, k: Kept)
    requires Tells(done, a, k) && a.events == []
    ensures k.advance.outcome != Stopped
  {
  }

  lemma NoEvents(p: Pool, outcome: Outcome)
    ensures Advance(p, [], outcome).events == []
  {
  }

  lemma KnownSilentAt(w: ParentOf, p: Pool, id: BlockIdentifier, k: nat)
    requires Genealogy(w) && Steady(w, p) && id in p.store && Meets(w, p.store, id, k)
    ensures Silent(p, Header(w, Back(w, id, k)))
  {
    hide Steady, Genealogy, Silent;
    KnownSilent(w, p, id, k);
  }

  lemma KnownBringsNothing(w: ParentOf, p: Pool, done: set<BlockIdentifier>, id: BlockIdentifier, k: nat)
    requires Genealogy(w) && Steady(w, p) && id in p.store && Meets(w, p.store, id, k)
    ensures !BringsBack(w, p, done, id, k)
  {
    hide Steady, Genealogy, Silent, Places, Revives, BringsBackAbove;
    KnownSilentAt(w, p, id, k);
  }

  /** The first block of a new pool is applied. */
  lemma FirstRuns(w: ParentOf, kept: set<BlockIdentifier>, done: set<BlockIdentifier>, id: BlockIdentifier, downloads: nat)
    requires Genealogy(w) && Invariant(w, EMPTY_POOL) && Accounts(EMPTY_POOL, kept, done) && id != NULL_ID
    ensures AdvanceKept(w, EMPTY_POOL, kept + {id}, [id], downloads).advance.outcome != Stopped
  {
    hide *;
    var h := Header(w, id);
    HeaderIs(w, id);
    FirstGate(w, id);
    AccountFetch(EMPTY_POOL, kept, done, id);
    AccountFirst(w, h, kept + {id}, done);
    KeptRound(w, EMPTY_POOL, kept + {id}, [id], downloads);
    var r := Process(EMPTY_POOL, h);
    assert [id][1..] == [] && [id][0] == id;
    NoRound(w, r.pool, kept + {id} - {id}, downloads);
    OutcomeKept(r.event.value, AdvanceKept(w, r.pool, kept + {id} - {id}, [], downloads));
  }

  lemma FirstGate(w: ParentOf, id: BlockIdentifier)
    requires Genealogy(w) && id != NULL_ID
    ensures WellFormed(w, Header(w, id)) && CanProcess(EMPTY_POOL, Header(w, id)) && id !in EMPTY_POOL.store
  {
  }

  /** A block the pool knows already ends the advance before anything is taken out. */
  lemma KnownRuns(w: ParentOf, p: Pool, kept: set<BlockIdentifier>, id: BlockIdentifier, downloads: nat, k: nat)
    requires Genealogy(w) && Steady(w, p) && Invariant(w, p) && id in p.store && id != NULL_ID
    requires k <= downloads && Meets(w, p.store, id, k) && Missing(w, p.store, id, k)
    ensures AdvanceKept(w, p, kept + {id}, [id], downloads).advance.outcome != Stopped
  {
    hide *;
    LadderOne(w, id);
    SteadyInvariant(w, p);
    FetchesKept(w, p, kept + {id}, id, k, downloads);
    MeetsMeans(w, p, id, k);
    LadderTop(w, id, k + 1);
    HeaderIs(w, Back(w, id, k));
    var all := kept + {id} + Members(Ladder(w, id, k + 1));
    LadderIn(w, id, k + 1, all);
    KnownSilentAt(w, p, id, k);
    CanFollow(p, Header(w, Back(w, id, k)));
    SilentIff(w, p, Header(w, Back(w, id, k)));
    KeptRound(w, p, all, Ladder(w, id, k + 1), downloads - k);
  }

  /**
    Exactly when an arriving block stops the program, for every pool and every
    store of blocks it can hold and any number of downloads that would work:
    the lowest block fetched brings back a block that was applied before.
   */
  lemma StopsAtIff(w: ParentOf, p: Pool, kept: set<BlockIdentifier>, done: set<BlockIdentifier>, id: BlockIdentifier, downloads: nat)
    requires Genealogy(w) && Healthy(w, p) && Accounts(p, kept, done) && id != NULL_ID
    ensures Invariant(w, p)
    ensures AdvanceKept(w, p, kept + {id}, [id], downloads).advance.outcome == Stopped <==> Repeats(w, p, done, id, downloads)
  {
    hide *;
    HealthyInvariant(w, p);
    LadderOne(w, id);
    ArrivalTells(w, p, kept, done, id, downloads);
    if p == EMPTY_POOL {
      NewNeverConnects(w, id, downloads);
      NeverRepeats(w, p, done, id, downloads);
      FirstRuns(w, kept, done, id, downloads);
    } else if Connects(w, p.store, id, downloads) {
      var k := Connection(w, p.store, id, downloads);
      RepeatsAt(w, p, done, id, k, downloads);
      if id in p.store {
        KnownBringsNothing(w, p, done, id, k);
        KnownRuns(w, p, kept, id, downloads, k);
      } else {
        FetchesKept(w, p, kept + {id}, id, k, downloads);
        AccountAll(w, p, kept, done, id, k);
        RungsKept(w, p, kept + {id} + Members(Ladder(w, id, k + 1)), done, id, k, downloads - k);
      }
    } else {
      NeverRejects(w, p, id, downloads);
      NeverRepeats(w, p, done, id, downloads);
      assert Missing(w, p.store, id, 0);
      FetchFails(w, p, id, 0, downloads);
      NoEvents(p, DownloadFailed);
      TellsNotStopped(done, Advance(p, [], DownloadFailed), AdvanceKept(w, p, kept + {id}, [id], downloads));
    }
  }

  // ------------------------------------------------------------ the run loop

  lemma {:induction false} AllAppliedConcat(a: seq<BlockchainEvent>, b: seq<BlockchainEvent>)
    ensures AllApplied(a + b) == AllApplied(a) + AllApplied(b)
    decreases |a|
  {
    hide Applied, Members;
    if a == [] {
      assert a + b == b;
    } else {
      assert (a + b)[1..] == a[1..] + b;
      AllAppliedConcat(a[1..], b);
    }
  }

  /** As long as every arrival succeeds, the blocks kept and the blocks applied account for each other. */
  lemma {:induction false} RunAccounts(w: ParentOf, p: Pool, kept: set<BlockIdentifier>, done: set<BlockIdentifier>,
                                       blocks: seq<(BlockIdentifier, nat)>)
    requires Genealogy(w) && Healthy(w, p) && Invariant(w, p) && Accounts(p, kept, done)
    requires forall i :: 0 <= i < |blocks| ==> blocks[i].0 != NULL_ID
    requires RunLoopKept(w, p, kept, blocks).advance.outcome == Done
    ensures var k := RunLoopKept(w, p, kept, blocks);
      Healthy(w, k.advance.pool) && Accounts(k.advance.pool, k.blocks, done + AllApplied(k.advance.events))
    decreases |blocks|
  {
    hide Invariant, Healthy, Genealogy, Accounts, Tells, AdvancePool, AdvanceKept, AllApplied;
    if blocks == [] {
      NoneApplied(done);
    } else {
      var id, downloads := blocks[0].0, blocks[0].1;
      var k := AdvanceKept(w, p, kept + {id}, [id], downloads);
      ArrivalTells(w, p, kept, done, id, downloads);
      KeptSame(w, p, kept + {id}, [id], downloads);
      AdvanceInvariant(w, p, [id], downloads);
      AdvanceHealthy(w, p, [id], downloads);
      var now := done + AllApplied(k.advance.events);
      RunAccounts(w, k.advance.pool, k.blocks, now, blocks[1..]);
      var rest := RunLoopKept(w, k.advance.pool, k.blocks, blocks[1..]);
      AllAppliedConcat(k.advance.events, rest.advance.events);
      assert now + AllApplied(rest.advance.events) == done + (AllApplied(k.advance.events) + AllApplied(rest.advance.events));
    }
  }

  lemma NoneApplied(done: set<BlockIdentifier>)
    ensures done + AllApplied([]) == done
  {
  }

  lemma {:induction false} RunKeptSnoc(w: ParentOf, p: Pool, kept: set<BlockIdentifier>, blocks: seq<(BlockIdentifier, nat)>,
                                       id: BlockIdentifier, downloads: nat)
    requires Genealogy(w) && Invariant(w, p) && (forall i :: 0 <= i < |blocks| ==> blocks[i].0 != NULL_ID) && id != NULL_ID
    requires RunLoopKept(w, p, kept, blocks).advance.outcome == Done
    ensures var k := RunLoopKept(w, p, kept, blocks);
      && Invariant(w, k.advance.pool)
      && RunLoopKept(w, p, kept, blocks + [(id, downloads)]).advance.outcome
         == AdvanceKept(w, k.advance.pool, k.blocks + {id}, [id], downloads).advance.outcome
    decreases |blocks|
  {
    hide AdvanceKept, Invariant, Genealogy;
    var all := blocks + [(id, downloads)];
    if blocks == [] {
      assert all == [(id, downloads)];
      KeptInvariant(w, p, kept + {id}, id, downloads);
    } else {
      var k := AdvanceKept(w, p, kept + {blocks[0].0}, [blocks[0].0], blocks[0].1);
      KeptInvariant(w, p, kept + {blocks[0].0}, blocks[0].0, blocks[0].1);
      assert all[1..] == blocks[1..] + [(id, downloads)];
      RunKeptSnoc(w, k.advance.pool, k.blocks, blocks[1..], id, downloads);
    }
  }

  /**
    From a new pool, after any arrivals that all succeeded: the next one stops
    the program exactly when the pool reached brings back, for it, a block that
    the events sent so far have applied.
   */
  lemma RunStopsIff(w: ParentOf, blocks: seq<(BlockIdentifier, nat)>, id: BlockIdentifier, downloads: nat)
    requires Genealogy(w) && (forall i :: 0 <= i < |blocks| ==> blocks[i].0 != NULL_ID) && id != NULL_ID
    requires Invariant(w, EMPTY_POOL) && RunLoopKept(w, EMPTY_POOL, {}, blocks).advance.outcome == Done
    ensures forall i :: 0 <= i < |blocks| + 1 ==> (blocks + [(id, downloads)])[i].0 != NULL_ID
    ensures var sent := RunLoopKept(w, EMPTY_POOL, {}, blocks).advance;
      RunLoopKept(w, EMPTY_POOL, {}, blocks + [(id, downloads)]).advance.outcome == Stopped
      <==> Repeats(w, sent.pool, AllApplied(sent.events), id, downloads)
  {
    hide *;
    NewPoolHealthy(w);
    NewPoolAccounts();
    RunAccounts(w, EMPTY_POOL, {}, {}, blocks);
    var k := RunLoopKept(w, EMPTY_POOL, {}, blocks);
    assert {} + AllApplied(k.advance.events) == AllApplied(k.advance.events);
    RunKeptSnoc(w, EMPTY_POOL, {}, blocks, id, downloads);
    StopsAtIff(w, k.advance.pool, k.blocks, AllApplied(k.advance.events), id, downloads);
  }
}
