/**
  The blocks kept beside the pool.  A block is taken out when it is applied, so
  the program stops as soon as it would have to apply one a second time.
 */
module KeptBlocks {
  import opened Wrappers
  import opened Sequences
  import opened BlockTypes
  import opened ChainSegments
  import opened SegmentProperties
  import opened PoolSteps
  import opened PoolInvariants
  import opened PoolRuns
  import opened PoolGuarantees
  import opened TidyPools
  import opened SteadyPools
  import opened PoolConsumer
  import opened GivingUp

  function Applied(event: BlockchainEvent): seq<BlockIdentifier> {
    Ids(event.Applied())
  }

  // -------------------------------------------------------- what is applied

  lemma {:induction false} TakeIff(kept: set<BlockIdentifier>, ids: seq<BlockIdentifier>)
    requires Distinct(ids)
    ensures Take(kept, ids).ok <==> forall b :: b in ids ==> b in kept
    ensures Take(kept, ids).ok ==> Take(kept, ids).left == kept - Members(ids)
  {
    if ids != [] {
      assert ids == [ids[0]] + ids[1..];
      assert ids[0] !in ids[1..];
      TakeIff(kept - {ids[0]}, ids[1..]);
      assert Members(ids) == {ids[0]} + Members(ids[1..]);
    } else {
      assert Members(ids) == {};
    }
  }

  lemma LinkedDistinct(w: ParentOf, s: seq<BlockIdentifier>)
    requires Linked(w, s)
    ensures Distinct(Reverse(s))
  {
    forall i, j | 0 <= i < j < |Reverse(s)| ensures Reverse(s)[i] != Reverse(s)[j] {
      ReverseAt(s, i);
      ReverseAt(s, j);
    }
  }

  /** The event between two forks of one root applies what is new, each block once. */
  lemma GeneratedApplies(w: ParentOf, store: HeadersStore, base: nat, canonical: seq<BlockIdentifier>,
                         previous: seq<BlockIdentifier>, b: BlockIdentifier)
    requires StoreOk(w, store) && ForkOk(w, store, base, canonical) && ForkOk(w, store, base, previous)
    requires Root(canonical) == Root(previous)
    ensures GenerateEvent(canonical, previous, store).Ok?
    ensures var ids := Applied(GenerateEvent(canonical, previous, store).value);
            Distinct(ids) && (b in ids <==> b in canonical && b !in previous)
  {
    hide StoreOk, Linked, Reverse, Diverge, Lookup;
    SharedRoot(w, store, base, canonical, previous);
    var i, j := DivergenceMeaning(w, canonical, previous, false);
    var d := Divergence(Reverse(canonical[..j]), previous[..i]);
    DivergenceLists(w, canonical, previous, d, b);
    ReverseStored(store, canonical[..j]);
    LookupSucceeds(w, store, d.apply);
    LookupSucceeds(w, store, d.rollback);
    LinkedTail(w, canonical, j);
    LinkedDistinct(w, canonical[..j]);
  }

  lemma PrunedApplies(p: Pool, event: BlockchainEvent)
    requires Descends(p.store)
    ensures Applied(Prune(p, event).1) == Applied(event)
  {
    hide Walk, PruneForks, PrunedIds, Outdated, Reverse, Lookup;
  }

  /** What the event of a step applies: the blocks the canonical fork did not have before. */
  lemma EventApplies(w: ParentOf, p: Pool, h: BlockHeader, b: BlockIdentifier)
    requires Genealogy(w) && WellFormed(w, h) && Settled(w, p) && Descends(p.store[h.id := h]) && Process(p, h).event.Some?
    ensures Places(p, h)
    ensures var ids := Applied(Process(p, h).event.value);
            Distinct(ids) && (b in ids <==> b in Canonical(After(p, h)) && b !in Canonical(p))
  {
    AtMostSix(w, p);
    hide *;
    ProcessCases(p, h);
    AfterKeeps(w, p, h);
    AdvancedMeans(w, Base(p), After(p, h));
    Concluded(w, Base(p), After(p, h), p.canonical, Canonical(p));
    EventNoDivergence(p, h);
    GeneratedApplies(w, After(p, h).store, Base(p), Canonical(After(p, h)), Canonical(p), b);
    PrunedApplies(After(p, h), GenerateEvent(Canonical(After(p, h)), Canonical(p), After(p, h).store).value);
  }

  lemma AppliedStored(w: ParentOf, p: Pool, h: BlockHeader, b: BlockIdentifier)
    requires Genealogy(w) && WellFormed(w, h) && Settled(w, p) && Descends(p.store[h.id := h]) && Process(p, h).event.Some?
    requires b in Applied(Process(p, h).event.value)
    ensures b in p.store || b == h.id
  {
    EventApplies(w, p, h, b);
    hide Process, After, Places, Genealogy, Settled, Linked, Applied;
    AfterKeeps(w, p, h);
  }

  // ---------------------------------------------------------- the invariant

  /** Among stored blocks those not kept are the ones applied; what is no longer stored lies below the pool. */
  ghost predicate Accounts(p: Pool, kept: set<BlockIdentifier>, done: set<BlockIdentifier>) {
    && p.canonical in p.forks
    && (forall b :: b in p.store ==> (b in kept <==> b !in done))
    && forall b :: b in done ==> b in p.store || b.index < Base(p)
  }

  /** A step keeps every stored block, unless it gets too low for the pool. */
  lemma PruneLeaves(w: ParentOf, base: nat, q: Pool, event: BlockchainEvent, b: BlockIdentifier)
    requires Genealogy(w) && Advanced(w, base, q) && Descends(q.store) && EndsAtTip(q, event) && b in q.store
    ensures var r := Prune(q, event).0;
      r.canonical in r.forks && (b in r.store || b.index < Base(r))
  {
    hide PruneForks, AtOrAbove, Linked, Prune, PrunedIds, Members, Lookup, Reverse, Walk, ForkOk, Genealogy, StoreOk;
    AdvancedMeans(w, base, q);
    PruneUnfolds(q, event);
    if Prunes(q, event) {
      WalkHeights(w, base, q);
      var r, height := Prune(q, event).0, FullWalk(q)[5].index;
      forall id | id in q.store && id.index >= height ensures id in r.store {
        StoreKept(q, height, FullWalk(q)[6..], r.store, id);
      }
      PruneKeeps(w, base, q, height, r);
    }
  }

  lemma StepLeaves(w: ParentOf, p: Pool, h: BlockHeader, b: BlockIdentifier)
    requires Genealogy(w) && WellFormed(w, h) && Steady(w, p) && Descends(p.store[h.id := h]) && Process(p, h).event.Some?
    requires b in p.store || b == h.id
    ensures var r := Process(p, h).pool; r.canonical in r.forks && (b in r.store || b.index < Base(r))
  {
    hide *;
    SteadyHolds(w, p);
    var event := EventfulPool(w, p, h);
    StoredWith(p.store, h, b);
    PruneLeaves(w, Base(p), After(p, h), event, b);
  }

  lemma StoredWith(store: HeadersStore, h: BlockHeader, b: BlockIdentifier)
    requires b in store || b == h.id
    ensures b in store[h.id := h]
  {
  }

  /** A block with an event was neither stored nor applied before. */
  lemma NewBlock(w: ParentOf, p: Pool, h: BlockHeader, kept: set<BlockIdentifier>, done: set<BlockIdentifier>)
    requires Genealogy(w) && WellFormed(w, h) && Steady(w, p) && Descends(p.store[h.id := h]) && Process(p, h).event.Some?
    requires h.parent in p.store && Accounts(p, kept, done)
    ensures h.id !in p.store && h.id !in done && Base(p) <= h.id.index
  {
    SteadyHolds(w, p);
    assert Descends(p.store[h.id := h]);
    assert h.parent != NULL_ID;
    hide Process, Steady, Settled, Place, Genealogy;
    ProcessCases(p, h);
    assert h.id.index > 0 && h.parent.index == h.id.index - 1;
    if h.parent.index < Base(p) {
      TooLow(w, p, h);
    }
  }

  lemma BaseRises(w: ParentOf, p: Pool, h: BlockHeader)
    requires Genealogy(w) && WellFormed(w, h) && Settled(w, p) && Descends(p.store[h.id := h]) && Process(p, h).event.Some?
    ensures var r := Process(p, h).pool; p.canonical in p.forks && r.canonical in r.forks && Base(r) >= Base(p)
    ensures Process(p, h).pool.store.Keys <= p.store.Keys + {h.id}
  {
    hide Process, Linked, Describes, ConfirmedBelow, Walk, ForksOk, Genealogy;
    EventNoDivergence(p, h);
    var grown, i, j := StepMeaning(w, p, h);
  }

  lemma Accounted(p: Pool, r: Pool, id: BlockIdentifier, kept: set<BlockIdentifier>, done: set<BlockIdentifier>, ids: seq<BlockIdentifier>)
    requires Accounts(p, kept, done) && id in kept && id !in done && id !in p.store && Distinct(ids)
    requires r.canonical in r.forks && p.canonical in p.forks && Base(r) >= Base(p) && r.store.Keys <= p.store.Keys + {id}
    requires forall b :: b in ids ==> b in p.store || b == id
    requires forall b :: b in p.store || b == id ==> b in r.store || b.index < Base(r)
    ensures Take(kept, ids).ok <==> Members(ids) !! done
    ensures Members(ids) <= p.store.Keys + {id}
    ensures Take(kept, ids).ok ==>
              Take(kept, ids).left == kept - Members(ids) && Accounts(r, kept - Members(ids), done + Members(ids))
  {
    hide Base, Take, Distinct;
    TakeIff(kept, ids);
  }

  /** A header that gives an event: it can be applied exactly when nothing it applies was applied before. */
  lemma AccountStep(w: ParentOf, p: Pool, h: BlockHeader, kept: set<BlockIdentifier>, done: set<BlockIdentifier>)
    requires Genealogy(w) && WellFormed(w, h) && Steady(w, p) && Descends(p.store[h.id := h]) && Process(p, h).event.Some?
    requires h.parent in p.store && h.id in kept && Accounts(p, kept, done)
    ensures var ids := Applied(Process(p, h).event.value);
      && (Take(kept, ids).ok <==> Members(ids) !! done)
      && Members(ids) <= p.store.Keys + {h.id}
      && (Take(kept, ids).ok ==>
            Take(kept, ids).left == kept - Members(ids)
            && Accounts(Process(p, h).pool, kept - Members(ids), done + Members(ids)))
  {
    hide *;
    SteadyHolds(w, p);
    var ids, r := Applied(Process(p, h).event.value), Process(p, h).pool;
    EventApplies(w, p, h, h.id);
    NewBlock(w, p, h, kept, done);
    BaseRises(w, p, h);
    forall b | b in ids ensures b in p.store || b == h.id {
      AppliedStored(w, p, h, b);
    }
    forall b | b in p.store || b == h.id ensures b in r.store || b.index < Base(r) {
      StepLeaves(w, p, h, b);
    }
    Accounted(p, r, h.id, kept, done, ids);
  }

  lemma AccountFirst(w: ParentOf, h: BlockHeader, kept: set<BlockIdentifier>, done: set<BlockIdentifier>)
    requires Genealogy(w) && WellFormed(w, h) && h.id in kept && Accounts(EMPTY_POOL, kept, done)
    ensures Descends(EMPTY_POOL.store[h.id := h]) && Process(EMPTY_POOL, h).event.Some?
    ensures var ids := Applied(Process(EMPTY_POOL, h).event.value);
      && ids == [h.id] && done == {}
      && Take(kept, ids) == Taking(kept - {h.id}, true)
      && Accounts(Process(EMPTY_POOL, h).pool, kept - {h.id}, {h.id})
  {
    hide Process, Settled, Genealogy;
    FirstStep(w, h);
    assert Base(EMPTY_POOL) == 0;
    assert Ids([h]) == [h.id];
    assert [h.id][1..] == [];
  }

  // ------------------------------------------------------ against the ideal

  function AllApplied(events: seq<BlockchainEvent>): set<BlockIdentifier> {
    if events == [] then {} else Members(Applied(events[0])) + AllApplied(events[1..])
  }

  /** The first event that applies a block for the second time, or the number of events. */
  function FirstRepeat(done: set<BlockIdentifier>, events: seq<BlockchainEvent>): (n: nat)
    ensures n <= |events|
    decreases |events|
  {
    if events == [] || !(Members(Applied(events[0])) !! done) then 0
    else 1 + FirstRepeat(done + Members(Applied(events[0])), events[1..])
  }

  /** The work with the blocks does what the pool asks for, up to the first repetition, where it stops. */
  ghost predicate Tells(done: set<BlockIdentifier>, a: Advance, k: Kept) {
    var n := FirstRepeat(done, a.events);
    && k.advance.events == a.events[..n]
    && (k.advance.outcome == Stopped <==> n < |a.events|)
    && (k.advance.outcome != Stopped ==> k.advance == a)
  }

  lemma TellsNothing(done: set<BlockIdentifier>, a: Advance, kept: set<BlockIdentifier>)
    requires a.events == [] && a.outcome != Stopped
    ensures Tells(done, a, Kept(a, kept)) && AllApplied(a.events) == {}
  {
  }

  lemma TellsOne(done: set<BlockIdentifier>, event: BlockchainEvent, a: Advance, k: Kept)
    requires Members(Applied(event)) !! done && Tells(done + Members(Applied(event)), a, k)
    ensures Tells(done, Announced(event, a), AnnouncedKept(event, k))
    ensures AllApplied(Announced(event, a).events) == Members(Applied(event)) + AllApplied(a.events)
  {
    var all, n := [event] + a.events, FirstRepeat(done + Members(Applied(event)), a.events);
    assert all[1..] == a.events;
    assert all[..1 + n] == [event] + a.events[..n];
  }

  lemma TellsStop(done: set<BlockIdentifier>, event: BlockchainEvent, a: Advance, p: Pool, kept: set<BlockIdentifier>)
    requires !(Members(Applied(event)) !! done)
    ensures Tells(done, Announced(event, a), Kept(Advance(p, [], Stopped), kept))
  {
    assert ([event] + a.events)[..0] == [];
  }

  // --------------------------------------------------------- round by round

  /** Waiting blocks, lowest first: each the parent of the next, kept, and new to the pool. */
  ghost predicate Ready(w: ParentOf, p: Pool, kept: set<BlockIdentifier>, ids: seq<BlockIdentifier>) {
    && (forall i {:trigger ids[i]} :: 0 <= i < |ids| ==>
          ids[i] != NULL_ID && ids[i] in kept && ids[i] !in p.store && ids[i].index == ids[0].index + i)
    && (p == EMPTY_POOL ==> |ids| <= 1)
  }

  lemma ReadyMeans(w: ParentOf, p: Pool, kept: set<BlockIdentifier>, ids: seq<BlockIdentifier>)
    requires Ready(w, p, kept, ids)
    ensures NULL_ID !in ids && (ids != [] ==> NULL_ID !in ids[1..] && ids[0] in kept && ids[0] != NULL_ID && ids[0] !in p.store)
  {
  }

  lemma ReadyNext(w: ParentOf, p: Pool, q: Pool, kept: set<BlockIdentifier>, ids: seq<BlockIdentifier>, gone: set<BlockIdentifier>)
    requires Ready(w, p, kept, ids) && ids != [] && q.store.Keys <= p.store.Keys + {ids[0]} && gone <= p.store.Keys + {ids[0]}
    requires p == EMPTY_POOL || q != EMPTY_POOL
    ensures Ready(w, q, kept - gone, ids[1..])
  {
  }

  lemma ReadyFetch(w: ParentOf, p: Pool, kept: set<BlockIdentifier>, ids: seq<BlockIdentifier>)
    requires Genealogy(w) && Ready(w, p, kept, ids) && ids != [] && p != EMPTY_POOL && w(ids[0]) != NULL_ID && w(ids[0]) !in p.store
    ensures Ready(w, p, kept + {w(ids[0])}, [w(ids[0])] + ids) && NULL_ID !in [w(ids[0])] + ids
  {
    assert ids[0].index > 0;
  }

  /** One round on a block whose parent is there. */
  lemma KeptRound(w: ParentOf, p: Pool, kept: set<BlockIdentifier>, ids: seq<BlockIdentifier>, downloads: nat)
    requires Genealogy(w) && Invariant(w, p) && NULL_ID !in ids && ids != [] && ids[0] in kept && CanProcess(p, Header(w, ids[0]))
    ensures Descends(p.store[ids[0] := Header(w, ids[0])])
    ensures var r := Process(p, Header(w, ids[0]));
      && (r.event == None ==>
            && AdvancePool(w, p, ids, downloads) == Advance(r.pool, [], UnableToAppend)
            && AdvanceKept(w, p, kept, ids, downloads) == Kept(Advance(r.pool, [], UnableToAppend), kept))
      && (r.event.Some? ==>
            var taking := Take(kept, Applied(r.event.value));
            && Invariant(w, r.pool)
            && AdvancePool(w, p, ids, downloads) == Announced(r.event.value, AdvancePool(w, r.pool, ids[1..], downloads))
            && AdvanceKept(w, p, kept, ids, downloads)
               == if taking.ok then AnnouncedKept(r.event.value, AdvanceKept(w, r.pool, taking.left, ids[1..], downloads))
                  else Kept(Advance(r.pool, [], Stopped), taking.left))
  {
    AnnounceIs(w, p, ids[0]);
    hide Process, Announce, Invariant, Genealogy, Descends, CanProcess, Take;
  }

  /** One round on a block whose parent has to be fetched. */
  lemma KeptFetch(w: ParentOf, p: Pool, kept: set<BlockIdentifier>, ids: seq<BlockIdentifier>, downloads: nat)
    requires Genealogy(w) && Invariant(w, p) && NULL_ID !in ids && ids != [] && ids[0] in kept && !CanProcess(p, Header(w, ids[0]))
    ensures downloads == 0 || w(ids[0]) == NULL_ID ==>
              && AdvancePool(w, p, ids, downloads) == Advance(p, [], DownloadFailed)
              && AdvanceKept(w, p, kept, ids, downloads) == Kept(Advance(p, [], DownloadFailed), kept)
    ensures downloads > 0 && w(ids[0]) != NULL_ID ==>
              && NULL_ID !in [w(ids[0])] + ids
              && AdvancePool(w, p, ids, downloads) == AdvancePool(w, p, [w(ids[0])] + ids, downloads - 1)
              && AdvanceKept(w, p, kept, ids, downloads) == AdvanceKept(w, p, kept + {w(ids[0])}, [w(ids[0])] + ids, downloads - 1)
  {
    hide Process, Announce, Invariant, Genealogy, Descends, CanProcess, Take;
  }

  /** A block with an event, taken from the front of the list. */
  lemma EventRound(w: ParentOf, p: Pool, kept: set<BlockIdentifier>, done: set<BlockIdentifier>, ids: seq<BlockIdentifier>)
    requires Genealogy(w) && Healthy(w, p) && Accounts(p, kept, done) && Ready(w, p, kept, ids) && ids != []
    requires CanProcess(p, Header(w, ids[0])) && Descends(p.store[ids[0] := Header(w, ids[0])])
    requires Process(p, Header(w, ids[0])).event.Some?
    ensures var r := Process(p, Header(w, ids[0]));
      var m, taking := Members(Applied(r.event.value)), Take(kept, Applied(r.event.value));
      && Healthy(w, r.pool) && (taking.ok <==> m !! done)
      && (taking.ok ==> Accounts(r.pool, taking.left, done + m) && Ready(w, r.pool, taking.left, ids[1..]))
  {
    hide Process, Steady, Invariant, Genealogy, Descends, Accounts, Ready, Take, Applied;
    var h := Header(w, ids[0]);
    var r := Process(p, h);
    ReadyMeans(w, p, kept, ids);
    HealthyInvariant(w, p);
    if p == EMPTY_POOL {
      FirstSteady(w, h);
      SteadyNotEmpty(w, r.pool);
      AccountFirst(w, h, kept, done);
      FirstStored(w, h);
      assert Members([h.id]) == {h.id};
      assert done + {h.id} == {h.id};
      ReadyNext(w, p, r.pool, kept, ids, {h.id});
    } else {
      SteadyStep(w, p, h);
      SteadyNotEmpty(w, r.pool);
      AccountStep(w, p, h, kept, done);
      ReadyNext(w, p, r.pool, kept, ids, Members(Applied(r.event.value)));
    }
  }

  lemma SteadyNotEmpty(w: ParentOf, p: Pool)
    requires Steady(w, p)
    ensures p != EMPTY_POOL
  {
    SteadyHolds(w, p);
  }

  lemma FirstStored(w: ParentOf, h: BlockHeader)
    requires Genealogy(w) && WellFormed(w, h)
    ensures Descends(EMPTY_POOL.store[h.id := h]) && Process(EMPTY_POOL, h).pool.store.Keys == {h.id}
  {
    hide Process, Settled, Genealogy;
    FirstStep(w, h);
  }

  /** On blocks that are new to the pool. */
  lemma {:induction false} FreshTells(w: ParentOf, p: Pool, kept: set<BlockIdentifier>, done: set<BlockIdentifier>,
                                      ids: seq<BlockIdentifier>, downloads: nat)
    requires Genealogy(w) && Healthy(w, p) && Invariant(w, p) && Accounts(p, kept, done) && Ready(w, p, kept, ids) && NULL_ID !in ids
    ensures var a, k := AdvancePool(w, p, ids, downloads), AdvanceKept(w, p, kept, ids, downloads);
      && Tells(done, a, k)
      && (k.advance.outcome == Done ==> Accounts(a.pool, k.blocks, done + AllApplied(a.events)))
    decreases downloads, |ids|, 1
  {
    hide *;
    if ids == [] {
      NoRound(w, p, kept, downloads);
      TellsNothing(done, Advance(p, [], Done), kept);
      assert done + {} == done;
    } else {
      HeaderIs(w, ids[0]);
      ReadyMeans(w, p, kept, ids);
      if CanProcess(p, Header(w, ids[0])) {
        KeptRound(w, p, kept, ids, downloads);
        var r := Process(p, Header(w, ids[0]));
        if r.event == None {
          TellsNothing(done, Advance(r.pool, [], UnableToAppend), kept);
        } else {
          EventRound(w, p, kept, done, ids);
          FreshTellsOn(w, p, kept, done, ids, downloads);
        }
      } else {
        KeptFetch(w, p, kept, ids, downloads);
        if downloads == 0 || w(ids[0]) == NULL_ID {
          TellsNothing(done, Advance(p, [], DownloadFailed), kept);
        } else {
          NotNew(p, Header(w, ids[0]));
          HeaderIs(w, ids[0]);
          ReadyFetch(w, p, kept, ids);
          AccountFetch(p, kept, done, w(ids[0]));
          FreshTells(w, p, kept + {w(ids[0])}, done, [w(ids[0])] + ids, downloads - 1);
        }
      }
    }
  }

  /** The blocks behind one that has an event. */
  lemma {:induction false} FreshTellsOn(w: ParentOf, p: Pool, kept: set<BlockIdentifier>, done: set<BlockIdentifier>,
                                        ids: seq<BlockIdentifier>, downloads: nat)
    requires Genealogy(w) && Invariant(w, p) && NULL_ID !in ids && ids != [] && NULL_ID !in ids[1..] && ids[0] in kept
    requires CanProcess(p, Header(w, ids[0])) && Descends(p.store[ids[0] := Header(w, ids[0])])
    requires Process(p, Header(w, ids[0])).event.Some?
    requires var r := Process(p, Header(w, ids[0]));
      var m, taking := Members(Applied(r.event.value)), Take(kept, Applied(r.event.value));
      && Healthy(w, r.pool) && Invariant(w, r.pool) && (taking.ok <==> m !! done)
      && (taking.ok ==> Accounts(r.pool, taking.left, done + m) && Ready(w, r.pool, taking.left, ids[1..]))
    ensures var a, k := AdvancePool(w, p, ids, downloads), AdvanceKept(w, p, kept, ids, downloads);
      && Tells(done, a, k)
      && (k.advance.outcome == Done ==> Accounts(a.pool, k.blocks, done + AllApplied(a.events)))
    decreases downloads, |ids|, 0
  {
    hide *;
    HeaderIs(w, ids[0]);
    KeptRound(w, p, kept, ids, downloads);
    var r := Process(p, Header(w, ids[0]));
    var m, taking := Members(Applied(r.event.value)), Take(kept, Applied(r.event.value));
    if taking.ok {
      FreshTells(w, r.pool, taking.left, done + m, ids[1..], downloads);
      var a, k := AdvancePool(w, r.pool, ids[1..], downloads), AdvanceKept(w, r.pool, taking.left, ids[1..], downloads);
      TellsOne(done, r.event.value, a, k);
      AnnouncedSame(r.event.value, a, k);
      assert done + (m + AllApplied(a.events)) == done + m + AllApplied(a.events);
    } else {
      TellsStop(done, r.event.value, AdvancePool(w, r.pool, ids[1..], downloads), r.pool, taking.left);
    }
  }

  lemma AnnouncedSame(event: BlockchainEvent, a: Advance, k: Kept)
    ensures Announced(event, a).pool == a.pool && AnnouncedKept(event, k).blocks == k.blocks
    ensures AnnouncedKept(event, k).advance.outcome == k.advance.outcome
  {
  }

  lemma NoRound(w: ParentOf, p: Pool, kept: set<BlockIdentifier>, downloads: nat)
    requires Genealogy(w) && Invariant(w, p)
    ensures AdvancePool(w, p, [], downloads) == Advance(p, [], Done)
    ensures AdvanceKept(w, p, kept, [], downloads) == Kept(Advance(p, [], Done), kept)
  {
    hide Invariant, Genealogy, Announce;
  }

  lemma NotNew(p: Pool, h: BlockHeader)
    requires !CanProcess(p, h)
    ensures p != EMPTY_POOL && p.store != map[] && h.parent !in p.store
  {
  }

  lemma AccountFetch(p: Pool, kept: set<BlockIdentifier>, done: set<BlockIdentifier>, id: BlockIdentifier)
    requires Accounts(p, kept, done) && id !in p.store
    ensures Accounts(p, kept + {id}, done)
  {
  }

  // ------------------------------------------------------- one arriving block

  lemma KnownSilent(w: ParentOf, p: Pool, id: BlockIdentifier, k: nat)
    requires Genealogy(w) && Steady(w, p) && id in p.store && Missing(w, p.store, id, k) && Back(w, id, k + 1) in p.store
    ensures Silent(p, Header(w, Back(w, id, k)))
  {
    hide Steady, Genealogy, Missing, Back;
    if k > 0 {
      assert Meets(w, p.store, id, k);
      KnownIsSilent(w, p, id, k);
    } else {
      assert Back(w, id, 0) == id by { BackZero(w, id); }
    }
  }

  lemma BackZero(w: ParentOf, id: BlockIdentifier)
    ensures Back(w, id, 0) == id
  {
  }

  lemma MissingMore(w: ParentOf, store: HeadersStore, id: BlockIdentifier, k: nat)
    requires Missing(w, store, id, k)
    ensures NULL_ID !in Ladder(w, id, k + 1)
    ensures Back(w, id, k + 1) !in store && Back(w, id, k + 1) != NULL_ID ==> Missing(w, store, id, k + 1)
    ensures [Back(w, id, k + 1)] + Ladder(w, id, k + 1) == Ladder(w, id, k + 2)
  {
    LadderBlocks(w, id, k + 1);
  }

  /** A block that is stored already ends the advance before anything is applied. */
  lemma {:induction false} KnownTells(w: ParentOf, p: Pool, kept: set<BlockIdentifier>, done: set<BlockIdentifier>,
                                      id: BlockIdentifier, k: nat, downloads: nat)
    requires Genealogy(w) && Steady(w, p) && Invariant(w, p) && id in p.store
    requires Missing(w, p.store, id, k) && Back(w, id, k) in kept && NULL_ID !in Ladder(w, id, k + 1)
    ensures var ids := Ladder(w, id, k + 1);
      && Tells(done, AdvancePool(w, p, ids, downloads), AdvanceKept(w, p, kept, ids, downloads))
      && AdvanceKept(w, p, kept, ids, downloads).advance.outcome != Done
    decreases downloads
  {
    hide *;
    var ids := Ladder(w, id, k + 1);
    LadderTop(w, id, k + 1);
    HeaderIs(w, ids[0]);
    MissingMore(w, p.store, id, k);
    SteadyInvariant(w, p);
    if CanProcess(p, Header(w, ids[0])) {
      MustBeStored(p, Header(w, ids[0]));
      KnownSilent(w, p, id, k);
      Round(w, p, ids, downloads);
      KeptRound(w, p, kept, ids, downloads);
      TellsNothing(done, AdvancePool(w, p, ids, downloads), kept);
    } else {
      KeptFetch(w, p, kept, ids, downloads);
      if downloads == 0 || w(ids[0]) == NULL_ID {
        TellsNothing(done, Advance(p, [], DownloadFailed), kept);
      } else {
        NotNew(p, Header(w, ids[0]));
        KnownTells(w, p, kept + {w(ids[0])}, done, id, k + 1, downloads - 1);
      }
    }
  }

  lemma MustBeStored(p: Pool, h: BlockHeader)
    requires CanProcess(p, h) && p.store != map[]
    ensures h.parent in p.store
  {
  }

  lemma OneReady(w: ParentOf, p: Pool, kept: set<BlockIdentifier>, id: BlockIdentifier)
    requires id != NULL_ID && id !in p.store && id in kept
    ensures Ready(w, p, kept, [id])
  {
  }

  lemma StoredIsNotNew(p: Pool, id: BlockIdentifier)
    requires id in p.store
    ensures p != EMPTY_POOL
  {
  }

  lemma ArrivalTells(w: ParentOf, p: Pool, kept: set<BlockIdentifier>, done: set<BlockIdentifier>, id: BlockIdentifier, downloads: nat)
    requires Genealogy(w) && Healthy(w, p) && Invariant(w, p) && Accounts(p, kept, done) && id != NULL_ID
    ensures var a, k := AdvancePool(w, p, [id], downloads), AdvanceKept(w, p, kept + {id}, [id], downloads);
      && Tells(done, a, k)
      && (k.advance.outcome == Done ==> Accounts(a.pool, k.blocks, done + AllApplied(a.events)))
  {
    hide *;
    if id in p.store {
      HealthyInvariant(w, p);
      StoredIsNotNew(p, id);
      LadderOne(w, id);
      BackZero(w, id);
      assert Missing(w, p.store, id, 0);
      KnownTells(w, p, kept + {id}, done, id, 0, downloads);
    } else {
      AccountFetch(p, kept, done, id);
      OneReady(w, p, kept + {id}, id);
      FreshTells(w, p, kept + {id}, done, [id], downloads);
    }
  }

  // ------------------------------------------------------------ the run loop

  lemma KeptInvariant(w: ParentOf, p: Pool, kept: set<BlockIdentifier>, id: BlockIdentifier, downloads: nat)
    requires Genealogy(w) && Invariant(w, p) && id != NULL_ID
    ensures var k := AdvanceKept(w, p, kept, [id], downloads); k.advance.outcome == Done ==> Invariant(w, k.advance.pool)
  {
    hide *;
    KeptSame(w, p, kept, [id], downloads);
    AdvanceInvariant(w, p, [id], downloads);
  }

  /** The loop of the caller with the blocks it keeps. */
  ghost function RunLoopKept(w: ParentOf, p: Pool, kept: set<BlockIdentifier>, blocks: seq<(BlockIdentifier, nat)>): Kept
    requires Genealogy(w) && Invariant(w, p) && forall i :: 0 <= i < |blocks| ==> blocks[i].0 != NULL_ID
    decreases |blocks|
  {
    hide Invariant;
    if blocks == [] then Kept(Advance(p, [], Done), kept)
    else
      var k := AdvanceKept(w, p, kept + {blocks[0].0}, [blocks[0].0], blocks[0].1);
      KeptInvariant(w, p, kept + {blocks[0].0}, blocks[0].0, blocks[0].1);
      if k.advance.outcome != Done then k
      else
        var rest := RunLoopKept(w, k.advance.pool, k.blocks, blocks[1..]);
        rest.(advance := rest.advance.(events := k.advance.events + rest.advance.events))
  }

  lemma {:induction false} RepeatConcat(done: set<BlockIdentifier>, a: seq<BlockchainEvent>, b: seq<BlockchainEvent>)
    ensures FirstRepeat(done, a + b) == if FirstRepeat(done, a) < |a| then FirstRepeat(done, a)
                                        else |a| + FirstRepeat(done + AllApplied(a), b)
    decreases |a|
  {
    hide Applied, Members;
    if a == [] {
      assert a + b == b;
      assert done + {} == done;
    } else {
      assert (a + b)[1..] == a[1..] + b;
      var m := Members(Applied(a[0]));
      RepeatConcat(done + m, a[1..], b);
      assert done + (m + AllApplied(a[1..])) == done + m + AllApplied(a[1..]);
    }
  }

  /** After the program has stopped, it makes no difference what else the pool would ask for. */
  lemma StoppedTells(done: set<BlockIdentifier>, a: Advance, k: Kept, more: Advance)
    requires Tells(done, a, k) && k.advance.outcome == Stopped
    ensures Tells(done, more.(events := a.events + more.events), k)
  {
    hide FirstRepeat;
    RepeatConcat(done, a.events, more.events);
    var n := FirstRepeat(done, a.events);
    assert (a.events + more.events)[..n] == a.events[..n];
  }

  lemma GoesOnTells(done: set<BlockIdentifier>, a: Advance, k: Kept, more: Advance, rest: Kept)
    requires Tells(done, a, k) && k.advance.outcome != Stopped && Tells(done + AllApplied(a.events), more, rest)
    ensures Tells(done, more.(events := a.events + more.events),
                  rest.(advance := rest.advance.(events := k.advance.events + rest.advance.events)))
  {
    hide FirstRepeat, AllApplied;
    RepeatConcat(done, a.events, more.events);
    var n := FirstRepeat(done + AllApplied(a.events), more.events);
    assert (a.events + more.events)[..|a.events| + n] == a.events + more.events[..n];
  }

  lemma {:induction false} LoopTells(w: ParentOf, p: Pool, kept: set<BlockIdentifier>, done: set<BlockIdentifier>,
                                     blocks: seq<(BlockIdentifier, nat)>)
    requires Genealogy(w) && Healthy(w, p) && Invariant(w, p) && Accounts(p, kept, done)
    requires forall i :: 0 <= i < |blocks| ==> blocks[i].0 != NULL_ID
    ensures Tells(done, RunLoop(w, p, blocks), RunLoopKept(w, p, kept, blocks))
    decreases |blocks|
  {
    hide Invariant, Healthy, Genealogy, Accounts, Tells, AdvancePool, AdvanceKept, AllApplied;
    if blocks == [] {
      TellsNothing(done, Advance(p, [], Done), kept);
    } else {
      var id, downloads := blocks[0].0, blocks[0].1;
      var a, k := AdvancePool(w, p, [id], downloads), AdvanceKept(w, p, kept + {id}, [id], downloads);
      ArrivalTells(w, p, kept, done, id, downloads);
      KeptSame(w, p, kept + {id}, [id], downloads);
      AdvanceInvariant(w, p, [id], downloads);
      AdvanceHealthy(w, p, [id], downloads);
      if k.advance.outcome == Stopped {
        if a.outcome == Done {
          StoppedTells(done, a, k, RunLoop(w, a.pool, blocks[1..]));
        }
      } else if a.outcome == Done {
        LoopTells(w, a.pool, k.blocks, done + AllApplied(a.events), blocks[1..]);
        GoesOnTells(done, a, k, RunLoop(w, a.pool, blocks[1..]), RunLoopKept(w, a.pool, k.blocks, blocks[1..]));
      }
    }
  }

  // ------------------------------------------------------------- the result

  /** Some block is applied by two events. */
  ghost predicate Twice(events: seq<BlockchainEvent>) {
    exists i, j, b :: 0 <= i < j < |events| && b in Applied(events[i]) && b in Applied(events[j])
  }

  ghost predicate Touches(done: set<BlockIdentifier>, events: seq<BlockchainEvent>) {
    exists j, b :: 0 <= j < |events| && b in Applied(events[j]) && b in done
  }

  lemma TouchesFirst(done: set<BlockIdentifier>, events: seq<BlockchainEvent>)
    requires events != []
    ensures var m := Members(Applied(events[0]));
      (Touches(done, events) || Twice(events)) <==> (!(m !! done) || Touches(done + m, events[1..]) || Twice(events[1..]))
  {
    hide Applied;
    var m, rest := Members(Applied(events[0])), events[1..];
    if Touches(done, events) {
      var j, b :| 0 <= j < |events| && b in Applied(events[j]) && b in done;
      if j > 0 {
        assert b in Applied(rest[j - 1]);
      } else {
        assert b in m && b in done;
      }
    }
    if Twice(events) {
      var i, j, b :| 0 <= i < j < |events| && b in Applied(events[i]) && b in Applied(events[j]);
      assert b in Applied(rest[j - 1]);
      if i > 0 {
        assert b in Applied(rest[i - 1]);
      } else {
        assert b in m;
      }
    }
    if x :| x in m && x in done {
      assert x in Applied(events[0]);
    }
    if Touches(done + m, rest) {
      var j, b :| 0 <= j < |rest| && b in Applied(rest[j]) && b in done + m;
      assert b in Applied(events[j + 1]);
      if b in m {
        assert b in Applied(events[0]);
      }
    }
    if Twice(rest) {
      var i, j, b :| 0 <= i < j < |rest| && b in Applied(rest[i]) && b in Applied(rest[j]);
      assert b in Applied(events[i + 1]) && b in Applied(events[j + 1]);
    }
  }

  lemma {:induction false} RepeatIff(done: set<BlockIdentifier>, events: seq<BlockchainEvent>)
    ensures FirstRepeat(done, events) < |events| <==> Touches(done, events) || Twice(events)
    decreases |events|
  {
    hide Applied, Members, Touches, Twice;
    if events != [] {
      TouchesFirst(done, events);
      RepeatIff(done + Members(Applied(events[0])), events[1..]);
    } else {
      NoneTouches(done);
    }
  }

  lemma NoneTouches(done: set<BlockIdentifier>)
    ensures !Touches(done, []) && !Twice([])
  {
  }

  lemma NewPoolAccounts()
    ensures Accounts(EMPTY_POOL, {}, {})
  {
  }

  /**
    From a new pool, whatever arrives: the program stops exactly when the pool
    asks for some block a second time, and up to then, or without that, it does
    exactly what the pool asks for.
   */
  lemma StopsIff(w: ParentOf, blocks: seq<(BlockIdentifier, nat)>)
    requires Genealogy(w) && Invariant(w, EMPTY_POOL) && forall i :: 0 <= i < |blocks| ==> blocks[i].0 != NULL_ID
    ensures var a, k := RunLoop(w, EMPTY_POOL, blocks), RunLoopKept(w, EMPTY_POOL, {}, blocks).advance;
      && (k.outcome == Stopped <==> Twice(a.events))
      && k.events <= a.events && !Twice(k.events)
      && (k.outcome != Stopped ==> k == a)
  {
    hide *;
    NewPoolHealthy(w);
    NewPoolAccounts();
    LoopTells(w, EMPTY_POOL, {}, {}, blocks);
    TellsMeans(RunLoop(w, EMPTY_POOL, blocks), RunLoopKept(w, EMPTY_POOL, {}, blocks));
  }

  lemma TellsMeans(a: Advance, k: Kept)
    requires Tells({}, a, k)
    ensures k.advance.outcome == Stopped <==> Twice(a.events)
    ensures k.advance.events <= a.events && !Twice(k.advance.events)
    ensures k.advance.outcome != Stopped ==> k.advance == a
  {
    hide FirstRepeat, Twice;
    RepeatIff({}, a.events);
    RepeatIff({}, k.advance.events);
    NoTouch(a.events);
    NoTouch(k.advance.events);
    var n := FirstRepeat({}, a.events);
    RepeatConcat({}, a.events[..n], a.events[n..]);
    assert a.events[..n] + a.events[n..] == a.events;
  }

  lemma NoTouch(events: seq<BlockchainEvent>)
    ensures !Touches({}, events)
  {
  }

  /**
    What the program really sends, from a new pool and whatever arrives: the
    indexer can carry it out, and unless the program gives up or stops the
    indexer's chain is the canonical fork on top of everything confirmed.
   */
  lemma KeptInStep(w: ParentOf, blocks: seq<(BlockIdentifier, nat)>)
    requires Genealogy(w) && Invariant(w, EMPTY_POOL) && forall i :: 0 <= i < |blocks| ==> blocks[i].0 != NULL_ID
    ensures var k := RunLoopKept(w, EMPTY_POOL, {}, blocks).advance;
      && ObeyAll([], Commands(k.events)).Some?
      && (k.outcome != UnableToAppend && k.outcome != Stopped ==>
            && k.pool.canonical in k.pool.forks
            && ObeyAll([], Commands(k.events)) == Some(Canonical(k.pool) + Reverse(ConfirmedAll(k.events)))
            && Linked(w, ObeyAll([], Commands(k.events)).value))
  {
    hide *;
    StopsIff(w, blocks);
    IndexerInStep(w, blocks);
    var a, k := RunLoop(w, EMPTY_POOL, blocks).events, RunLoopKept(w, EMPTY_POOL, {}, blocks).advance.events;
    CommandsFollow([], a);
    CommandsFollow([], k);
    PrefixFollows([], k, a);
  }
}
