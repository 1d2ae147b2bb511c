/** Finality, bounded reorganisations, and conservation of the confirmed chain. */
module PoolGuarantees {
  import opened Wrappers
  import opened Sequences
  import opened BlockTypes
  import opened SegmentProperties
  import opened PoolSteps
  import opened PoolInvariants
  import opened PoolRuns

  // -------------------------------------------------------------- finality

  /** An event removes few blocks, none of them as low as `floor`. */
  ghost predicate Shallow(event: BlockchainEvent, floor: int) {
    && |event.RolledBack()| <= 5
    && forall b :: b in Ids(event.RolledBack()) ==> b.index > floor
  }

  lemma StepShallow(w: ParentOf, p: Pool, h: BlockHeader)
    requires Genealogy(w) && WellFormed(w, h) && Settled(w, p)
    requires Descends(p.store[h.id := h]) && !Process(p, h).diverged
    ensures var r := Process(p, h);
      && Settled(w, r.pool) && Base(r.pool) >= Base(p)
      && (r.event.Some? ==> Shallow(r.event.value, Base(p)) && ConfirmedBelow(r.event.value, r.pool))
  {
    hide Process, Walk, ConfirmedBelow;
    var r := Process(p, h);
    var grown, i, j := StepMeaning(w, p, h);
    assert ForkOk(w, p.store, Base(p), Canonical(p));
    var previous := Canonical(p);
    if r.event.Some? {
      var rolled := Ids(r.event.value.RolledBack());
      assert |rolled| == i;
      assert previous[|previous| - 1].index == previous[0].index - (|previous| - 1);
      forall b | b in rolled ensures b.index > Base(p) {
        var k :| 0 <= k < i && rolled[k] == b;
        assert b == previous[k];
      }
    }
  }

  /** The lowest height a pool can still take back. */
  ghost function Floor(p: Pool): int {
    if p.canonical in p.forks && p != EMPTY_POOL then Base(p) else -1
  }

  lemma StepFloor(w: ParentOf, p: Pool, h: BlockHeader)
    requires Genealogy(w) && WellFormed(w, h) && Invariant(w, p)
    ensures var r := Next(w, p, h);
      !r.diverged ==>
        && Floor(r.pool) >= Floor(p)
        && (r.event.Some? ==>
              && Shallow(r.event.value, Floor(p))
              && forall b :: b in Ids(r.event.value.confirmed) ==> b.index < Floor(r.pool))
  {
    hide Process, Settled;
    StepInvariant(w, p, h);
    if p == EMPTY_POOL {
      FirstStep(w, h);
    } else if !Process(p, h).diverged {
      StepShallow(w, p, h);
      StepNotEmpty(w, p, h);
    }
  }

  /** Over every run, no event removes more than five blocks, nor any below the starting floor. */
  lemma {:induction false} BoundedReorgs(w: ParentOf, p: Pool, headers: seq<BlockHeader>)
    requires Genealogy(w) && AllWellFormed(w, headers) && Invariant(w, p)
    ensures forall k :: 0 <= k < |Perform(w, p, headers).events| ==> Shallow(Perform(w, p, headers).events[k], Floor(p))
    decreases |headers|
  {
    hide Next, Invariant, Floor;
    if headers != [] {
      var r := Next(w, p, headers[0]);
      StepFloor(w, p, headers[0]);
      if !r.diverged {
        BoundedReorgs(w, r.pool, headers[1..]);
      }
    }
  }

  ghost predicate SparedBy(event: BlockchainEvent, later: seq<BlockchainEvent>) {
    forall j, b :: 0 <= j < |later| && b in Ids(event.confirmed) ==> b !in Ids(later[j].RolledBack())
  }

  /** No event rolls back what an earlier one confirmed. */
  ghost predicate Final(events: seq<BlockchainEvent>) {
    events != [] ==> SparedBy(events[0], events[1..]) && Final(events[1..])
  }

  /** Finality: over every run, a block reported as confirmed is never rolled back later. */
  lemma {:induction false} Finality(w: ParentOf, p: Pool, headers: seq<BlockHeader>)
    requires Genealogy(w) && AllWellFormed(w, headers) && Invariant(w, p)
    ensures Final(Perform(w, p, headers).events)
    decreases |headers|
  {
    hide Next, Invariant, Floor;
    if headers != [] {
      var r := Next(w, p, headers[0]);
      if !r.diverged {
        StepFloor(w, p, headers[0]);
        var tail := Perform(w, r.pool, headers[1..]).events;
        Finality(w, r.pool, headers[1..]);
        BoundedReorgs(w, r.pool, headers[1..]);
        FinalFront(EventOf(r), tail, Floor(r.pool));
      }
    }
  }

  lemma FinalFront(front: seq<BlockchainEvent>, tail: seq<BlockchainEvent>, floor: int)
    requires |front| <= 1 && Final(tail)
    requires front != [] ==> forall b :: b in Ids(front[0].confirmed) ==> b.index < floor
    requires forall k :: 0 <= k < |tail| ==> Shallow(tail[k], floor)
    ensures Final(front + tail)
  {
    if front == [] {
      assert front + tail == tail;
    } else {
      assert (front + tail)[1..] == tail;
    }
  }

  lemma {:induction false} FinalPairs(events: seq<BlockchainEvent>, i: nat, j: nat, b: BlockIdentifier)
    requires Final(events) && i < j < |events| && b in Ids(events[i].confirmed)
    ensures b !in Ids(events[j].RolledBack())
  {
    if i == 0 {
      assert events[1..][j - 1] == events[j];
    } else {
      FinalPairs(events[1..], i - 1, j - 1, b);
    }
  }

  // ----------------------------------------------------------- conservation

  /** The k-th ancestor of a block. */
  ghost function Back(w: ParentOf, id: BlockIdentifier, k: nat): BlockIdentifier {
    if k == 0 then id else w(Back(w, id, k - 1))
  }

  lemma {:induction false} BackAdds(w: ParentOf, id: BlockIdentifier, a: nat, b: nat)
    ensures Back(w, Back(w, id, a), b) == Back(w, id, a + b)
  {
    if b > 0 {
      BackAdds(w, id, a, b - 1);
    }
  }

  lemma {:induction false} LinkedBack(w: ParentOf, s: seq<BlockIdentifier>, i: nat)
    requires Linked(w, s) && i < |s|
    ensures s[i] == Back(w, s[0], i)
  {
    if i > 0 {
      LinkedBack(w, s, i - 1);
      assert w(s[i - 1]) == s[i];
    }
  }

  /** No ancestor of the oldest block in memory is stored. */
  ghost predicate Rooted(w: ParentOf, store: HeadersStore, root: BlockIdentifier) {
    forall k: nat :: k > 0 ==> Back(w, root, k) !in store
  }

  /** Every header in the run had its parent in the store, as its caller checks. */
  ghost predicate Gated(w: ParentOf, p: Pool, headers: seq<BlockHeader>)
    requires Genealogy(w) && AllWellFormed(w, headers) && Invariant(w, p)
    decreases |headers|
  {
    headers != [] ==>
      && CanProcess(p, headers[0])
      && var r := Next(w, p, headers[0]);
         !r.diverged ==> Gated(w, r.pool, headers[1..])
  }

  lemma RootedKept(w: ParentOf, p: Pool, root: BlockIdentifier, h: BlockHeader)
    requires Rooted(w, p.store, root) && h.parent in p.store && h.parent == w(h.id)
    ensures Rooted(w, p.store[h.id := h], root)
  {
    forall k: nat | k > 0 ensures Back(w, root, k) !in p.store[h.id := h] {
      assert Back(w, root, k + 1) !in p.store;
    }
  }

  lemma WalkIsFork(w: ParentOf, store: HeadersStore, base: nat, s: seq<BlockIdentifier>)
    requires Genealogy(w) && StoreOk(w, store) && Descends(store) && ForkOk(w, store, base, s)
    requires Rooted(w, store, Root(s))
    ensures Walk(store, s[0]) == s
  {
    WalkFollows(w, store, s);
    assert Back(w, Root(s), 0) == Root(s);
    assert Back(w, Root(s), 1) == w(Root(s));
  }

  /** After pruning to six blocks the new root is as bare as the old one. */
  lemma RootedCut(w: ParentOf, store: HeadersStore, left: HeadersStore, s: seq<BlockIdentifier>)
    requires Linked(w, s) && s != [] && Rooted(w, store, Root(s)) && left.Keys <= store.Keys
    requires forall i :: 6 <= i < |s| ==> s[i] !in left
    ensures Rooted(w, left, Root(Newest(s)))
  {
    var n := |Newest(s)|;
    forall k: nat | k > 0 ensures Back(w, Root(Newest(s)), k) !in left {
      LinkedBack(w, s, n - 1);
      BackAdds(w, s[0], n - 1, k);
      if n - 1 + k < |s| {
        LinkedBack(w, s, n - 1 + k);
      } else {
        LinkedBack(w, s, |s| - 1);
        BackAdds(w, s[0], |s| - 1, n + k - |s|);
      }
    }
  }

  lemma {:induction false} BackLower(w: ParentOf, id: BlockIdentifier, k: nat)
    requires Genealogy(w) && id != NULL_ID && k > 0
    ensures Back(w, id, k) == NULL_ID || Back(w, id, k).index < id.index
  {
    if k > 1 {
      BackLower(w, id, k - 1);
    }
  }

  /** All confirmed blocks of a run, oldest report first. */
  function ConfirmedAll(events: seq<BlockchainEvent>): seq<BlockIdentifier> {
    if events == [] then [] else Ids(events[0].confirmed) + ConfirmedAll(events[1..])
  }

  /**
    The follower's chain is the canonical segment on top of the confirmed
    blocks, and nothing older than the segment is stored.
   */
  ghost predicate Conserved(w: ParentOf, p: Pool, chain: seq<BlockIdentifier>, confirmed: seq<BlockIdentifier>) {
    if p == EMPTY_POOL then chain == [] && confirmed == []
    else
      && p.canonical in p.forks && chain == Canonical(p) + confirmed
      && Rooted(w, p.store, Root(Canonical(p)))
  }

  lemma SpliceConfirmed(event: BlockchainEvent, previous: seq<BlockIdentifier>, grown: seq<BlockIdentifier>, i: nat, j: nat,
                        confirmed: seq<BlockIdentifier>)
    requires Describes(event, previous, grown, i, j)
    requires Ids(event.confirmed) == Reverse(grown[|Newest(grown)|..])
    ensures Follow(previous + confirmed, event)
            == Some(Newest(grown) + (Reverse(Ids(event.confirmed)) + confirmed))
  {
    hide Reverse, Newest;
    var n := |Newest(grown)|;
    ReverseTwice(grown[..j]);
    ReverseTwice(grown[n..]);
    PrefixOfSum(previous, i, confirmed);
    Regroup(grown, j, confirmed);
    Regroup(grown, n, confirmed);
    assert Newest(grown) == grown[..n];
  }

  lemma PrefixOfSum(a: seq<BlockIdentifier>, i: nat, b: seq<BlockIdentifier>)
    requires i <= |a|
    ensures a[..i] <= a + b && (a + b)[i..] == a[i..] + b
  {
  }

  lemma Regroup(a: seq<BlockIdentifier>, i: nat, b: seq<BlockIdentifier>)
    requires i <= |a|
    ensures a[..i] + (a[i..] + b) == a + b
  {
  }

  /** A gated step moves blocks from the segment to the confirmed chain and loses none. */
  lemma ConserveStep(w: ParentOf, p: Pool, h: BlockHeader, chain: seq<BlockIdentifier>, confirmed: seq<BlockIdentifier>)
    requires Genealogy(w) && WellFormed(w, h) && Settled(w, p) && p != EMPTY_POOL
    requires Descends(p.store[h.id := h]) && !Process(p, h).diverged
    requires Conserved(w, p, chain, confirmed) && CanProcess(p, h)
    ensures var r := Process(p, h);
      && r.pool.canonical in r.pool.forks && Rooted(w, r.pool.store, Root(Canonical(r.pool)))
      && (r.event == None ==> chain == Canonical(r.pool) + confirmed)
      && (r.event.Some? ==>
            Follow(chain, r.event.value) == Some(Canonical(r.pool) + (Reverse(Ids(r.event.value.confirmed)) + confirmed)))
  {
    hide Process, Linked, Describes, Follow, Walk, ForksOk, Rooted;
    var r, store := Process(p, h), p.store[h.id := h];
    var grown, i, j := StepMeaning(w, p, h);
    SettledHolds(w, p);
    StoredAfter(w, p, h);
    RootedKept(w, p, Root(Canonical(p)), h);
    if r.event.Some? {
      SameRoot(r.event.value, Canonical(p), grown, i, j);
      WalkIsFork(w, store, Base(p), grown);
      SpliceConfirmed(r.event.value, Canonical(p), grown, i, j, confirmed);
    }
    forall k | 6 <= k < |grown| ensures grown[k] !in r.pool.store {
      ReverseMembers(grown[6..], grown[k]);
      assert grown[k] == grown[6..][k - 6];
    }
    RootedCut(w, store, r.pool.store, grown);
  }

  lemma SettledHolds(w: ParentOf, p: Pool)
    requires Settled(w, p)
    ensures p.canonical in p.forks && Canonical(p) != [] && p.store != map[]
  {
    assert ForkOk(w, p.store, Base(p), Canonical(p));
    assert Canonical(p)[0] in p.store;
  }

  lemma SameRoot(event: BlockchainEvent, previous: seq<BlockIdentifier>, grown: seq<BlockIdentifier>, i: nat, j: nat)
    requires Describes(event, previous, grown, i, j) && previous != []
    ensures Root(previous) == Root(grown)
  {
    assert previous[i..][|previous| - i - 1] == grown[j..][|grown| - j - 1];
  }

  lemma FirstConserve(w: ParentOf, h: BlockHeader)
    requires Genealogy(w) && WellFormed(w, h)
    ensures Descends(EMPTY_POOL.store[h.id := h])
    ensures var r := Process(EMPTY_POOL, h);
      r.event.Some? && r.event.value.confirmed == [] && Conserved(w, r.pool, [h.id], [])
  {
    hide Process;
    FirstStep(w, h);
    forall k: nat | k > 0 ensures Back(w, h.id, k) != h.id {
      BackLower(w, h.id, k);
    }
    assert [h.id] + [] == [h.id];
  }

  lemma ConserveAny(w: ParentOf, p: Pool, h: BlockHeader, chain: seq<BlockIdentifier>, confirmed: seq<BlockIdentifier>)
    requires Genealogy(w) && WellFormed(w, h) && Invariant(w, p) && Conserved(w, p, chain, confirmed) && CanProcess(p, h)
    ensures var r := Next(w, p, h);
      !r.diverged ==>
        && FollowAll(chain, EventOf(r)).Some?
        && Conserved(w, r.pool, FollowAll(chain, EventOf(r)).value, Reverse(ConfirmedAll(EventOf(r))) + confirmed)
  {
    hide Process, Settled, Follow, Rooted;
    StepInvariant(w, p, h);
    var r := Next(w, p, h);
    if p == EMPTY_POOL {
      FirstFollow(w, h);
      FirstConserve(w, h);
      assert Reverse(ConfirmedAll(EventOf(r))) + confirmed == [];
    } else if !r.diverged {
      ConserveStep(w, p, h, chain, confirmed);
      StepNotEmpty(w, p, h);
      assert r.event == None ==> Reverse(ConfirmedAll(EventOf(r))) + confirmed == confirmed;
      assert r.event.Some? ==> ConfirmedAll(EventOf(r)) == Ids(r.event.value.confirmed);
    }
  }

  lemma {:induction false} ConfirmedConcat(a: seq<BlockchainEvent>, b: seq<BlockchainEvent>)
    ensures ConfirmedAll(a + b) == ConfirmedAll(a) + ConfirmedAll(b)
  {
    if a == [] {
      assert a + b == b;
    } else {
      assert (a + b)[1..] == a[1..] + b;
      ConfirmedConcat(a[1..], b);
    }
  }

  /**
    Conservation: over every gated run that does not diverge, the follower's
    chain is the canonical segment on top of all confirmed blocks, in order.
   */
  lemma {:induction false} Conservation(w: ParentOf, p: Pool, headers: seq<BlockHeader>, chain: seq<BlockIdentifier>,
                                        confirmed: seq<BlockIdentifier>)
    requires Genealogy(w) && AllWellFormed(w, headers) && Invariant(w, p)
    requires Gated(w, p, headers) && Conserved(w, p, chain, confirmed)
    requires !Perform(w, p, headers).diverged
    ensures var run := Perform(w, p, headers);
      && FollowAll(chain, run.events).Some?
      && Conserved(w, run.pool, FollowAll(chain, run.events).value, Reverse(ConfirmedAll(run.events)) + confirmed)
    decreases |headers|
  {
    hide Process, Next, Invariant, Conserved, FollowAll, CanProcess, ConfirmedAll, Reverse;
    if headers == [] {
      NothingToFollow(chain);
      NothingConfirmed(confirmed);
    } else {
      var r := Next(w, p, headers[0]);
      ConserveAny(w, p, headers[0], chain, confirmed);
      var rest := Perform(w, r.pool, headers[1..]);
      var now := Reverse(ConfirmedAll(EventOf(r))) + confirmed;
      Conservation(w, r.pool, headers[1..], FollowAll(chain, EventOf(r)).value, now);
      FollowConcat(chain, EventOf(r), rest.events);
      ConfirmedConcat(EventOf(r), rest.events);
      ReverseAppend(ConfirmedAll(EventOf(r)), ConfirmedAll(rest.events));
      assert Reverse(ConfirmedAll(rest.events)) + now
             == Reverse(ConfirmedAll(EventOf(r) + rest.events)) + confirmed;
    }
  }

  lemma NothingConfirmed(confirmed: seq<BlockIdentifier>)
    ensures Reverse(ConfirmedAll([])) + confirmed == confirmed
  {
  }

  /** From a new pool: confirmed blocks and canonical segment make up one chain, each block once. */
  lemma ConservationFromStart(w: ParentOf, headers: seq<BlockHeader>)
    requires Genealogy(w) && AllWellFormed(w, headers) && Gated(w, EMPTY_POOL, headers)
    requires !Perform(w, EMPTY_POOL, headers).diverged
    ensures var run := Perform(w, EMPTY_POOL, headers);
      && run.pool.canonical in run.pool.forks
      && FollowAll([], run.events) == Some(Canonical(run.pool) + Reverse(ConfirmedAll(run.events)))
      && Linked(w, Canonical(run.pool) + Reverse(ConfirmedAll(run.events)))
  {
    hide Perform, FollowAll, Linked, Gated;
    Conservation(w, EMPTY_POOL, headers, [], []);
    ReplayFromStart(w, headers);
    var confirmed := Reverse(ConfirmedAll(Perform(w, EMPTY_POOL, headers).events));
    assert confirmed + [] == confirmed;
  }
}
