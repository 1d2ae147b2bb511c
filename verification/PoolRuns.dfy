/**
  What a follower may rely on over every run of the block pool: its chain is
  rebuilt by the events, finality holds and reorganisations are shallow.  All
  of it stands until a step diverges, where the pool's caller gives up.
 */
module PoolRuns {
  import opened Wrappers
  import opened Sequences
  import opened BlockTypes
  import opened ChainSegments
  import opened SegmentProperties
  import opened PoolSteps
  import opened PoolInvariants

  /** The oldest block of a segment. */
  function Root(s: seq<BlockIdentifier>): BlockIdentifier {
    if s == [] then NULL_ID else s[|s| - 1]
  }

  // ----------------------------------------------------------- one event

  /**
    The event turns one canonical segment into another: it removes the top of
    the first and adds the top of the second, and what lies below is the same.
   */
  ghost predicate Describes(event: BlockchainEvent, previous: seq<BlockIdentifier>, grown: seq<BlockIdentifier>, i: nat, j: nat) {
    && i <= |previous| && j <= |grown|
    && Ids(event.RolledBack()) == previous[..i]
    && Ids(event.Applied()) == Reverse(grown[..j])
    && grown[j..] == previous[i..]
    && (previous != [] ==> i < |previous|)
  }

  /** Two forks of one pool share a block exactly when they share the oldest one. */
  lemma SharedRoot(w: ParentOf, store: HeadersStore, base: nat, a: seq<BlockIdentifier>, b: seq<BlockIdentifier>)
    requires ForkOk(w, store, base, a) && ForkOk(w, store, base, b)
    ensures (exists x :: x in b && x in a) <==> Root(a) == Root(b)
  {
    if x :| x in b && x in a {
      var i, j := IndexOf(b, x), IndexOf(a, x);
      CommonTails(w, a, j, b, i);
      assert a[j..][|a| - j - 1] == Root(a) && b[i..][|b| - i - 1] == Root(b);
    }
    if Root(a) == Root(b) {
      assert Root(a) in a && Root(a) in b;
    }
  }

  /** Header lookups for an event never fail: every block of a fork is stored. */
  lemma LookupSucceeds(w: ParentOf, store: HeadersStore, ids: seq<BlockIdentifier>)
    requires StoreOk(w, store) && forall i :: 0 <= i < |ids| ==> ids[i] in store
    ensures Lookup(ids, store).Some? && Ids(Lookup(ids, store).value) == ids
  {
  }

  lemma ReverseStored(store: HeadersStore, s: seq<BlockIdentifier>)
    requires forall i :: 0 <= i < |s| ==> s[i] in store
    ensures forall i :: 0 <= i < |Reverse(s)| ==> Reverse(s)[i] in store
  {
    forall i | 0 <= i < |Reverse(s)| ensures Reverse(s)[i] in store {
      ReverseAt(s, i);
    }
  }

  lemma EventMeaning(w: ParentOf, store: HeadersStore, base: nat, canonical: seq<BlockIdentifier>, previous: seq<BlockIdentifier>)
    returns (i: nat, j: nat)
    requires StoreOk(w, store) && ForkOk(w, store, base, canonical) && ForkOk(w, store, base, previous)
    requires Root(canonical) == Root(previous)
    ensures GenerateEvent(canonical, previous, store).Ok?
    ensures Describes(GenerateEvent(canonical, previous, store).value, previous, canonical, i, j)
    ensures GenerateEvent(canonical, previous, store).value.confirmed == []
    ensures i < |previous| && j < |canonical|
  {
    hide StoreOk, Linked, Reverse, Diverge, Lookup;
    SharedRoot(w, store, base, canonical, previous);
    i, j := DivergenceMeaning(w, canonical, previous, false);
    ReverseStored(store, canonical[..j]);
    LookupSucceeds(w, store, Reverse(canonical[..j]));
    LookupSucceeds(w, store, previous[..i]);
    var event := GenerateEvent(canonical, previous, store).value;
    if previous[..i] == [] {
      assert event.RolledBack() == [];
    }
  }

  lemma NoEventMeaning(w: ParentOf, store: HeadersStore, base: nat, canonical: seq<BlockIdentifier>, previous: seq<BlockIdentifier>)
    requires ForkOk(w, store, base, canonical) && ForkOk(w, store, base, previous)
    requires Root(canonical) != Root(previous)
    ensures GenerateEvent(canonical, previous, store) == Err(ParentBlockUnknown)
  {
    SharedRoot(w, store, base, canonical, previous);
    assert forall x :: x in previous ==> x !in canonical;
  }

  function Newest(s: seq<BlockIdentifier>): (r: seq<BlockIdentifier>)
    ensures r <= s && |r| == if |s| < 6 then |s| else 6
  {
    s[..if |s| < 6 then |s| else 6]
  }

  /** What `Prune` does at the end of a step, in full. */
  lemma PruneMeaning(w: ParentOf, base: nat, p: Pool, event: BlockchainEvent)
    requires Genealogy(w) && Advanced(w, base, p) && Descends(p.store) && EndsAtTip(p, event)
    ensures var (q, full) := Prune(p, event);
            && Settled(w, q) && Canonical(q) == Newest(Canonical(p)) && Base(q) >= base
            && full == event.(confirmed := full.confirmed)
            && Ids(full.confirmed) == (if Prunes(p, event) then Reverse(FullWalk(p)[6..]) else [])
            && (forall b :: b in Ids(full.confirmed) ==> b.index < Base(q) && b !in q.store)
            && q.store.Keys <= p.store.Keys
  {
    hide PruneForks, AtOrAbove, Linked;
    PruneUnfolds(p, event);
    var (q, full) := Prune(p, event);
    if Prunes(p, event) {
      WalkHeights(w, base, p);
      var height, confirmed := FullWalk(p)[5].index, FullWalk(p)[6..];
      forall id | id in p.store && id.index >= height ensures id in q.store {
        StoreKept(p, height, confirmed, q.store, id);
      }
      PruneKeeps(w, base, p, height, q);
      ConfirmedIds(w, p.store, confirmed);
      forall b | b in Ids(full.confirmed) ensures b in confirmed {
        ReverseMembers(confirmed, b);
      }
    } else {
      ShortCanonical(w, base, p, event);
    }
  }

  /** A step that does not prune leaves the canonical fork within six blocks. */
  lemma ShortCanonical(w: ParentOf, base: nat, p: Pool, event: BlockchainEvent)
    requires Genealogy(w) && Advanced(w, base, p) && Descends(p.store) && EndsAtTip(p, event) && !Prunes(p, event)
    ensures |Canonical(p)| <= 6
  {
    assert ForkOk(w, p.store, base, Canonical(p));
    WalkFollows(w, p.store, Canonical(p));
  }

  // ------------------------------------------------------------ one header

  lemma FirstConclusion(h: BlockHeader)
    requires h.parent != h.id
    ensures var p := Pool(0, {}, map[0 := [h.id]], map[h.id := h]);
            Descends(p.store) && Conclude(p, 0, []) == Step(p, Some(UpdatedWithHeaders([h], [])), false)
  {
    var p := Pool(0, {}, map[0 := [h.id]], map[h.id := h]);
    assert Reverse([h.id]) == [h.id];
    assert Lookup([h.id], p.store).value == [h];
    assert Walk(p.store, h.id) == [h.id];
  }

  /** The first header: one block, one fork, one event, nothing pruned. */
  lemma FirstStep(w: ParentOf, h: BlockHeader)
    requires Genealogy(w) && WellFormed(w, h)
    ensures Descends(EMPTY_POOL.store[h.id := h])
    ensures Process(EMPTY_POOL, h) ==
              Step(Pool(0, {}, map[0 := [h.id]], map[h.id := h]), Some(UpdatedWithHeaders([h], [])), false)
    ensures Settled(w, Process(EMPTY_POOL, h).pool)
  {
    hide Conclude, Grown, Place;
    StoredAfter(w, EMPTY_POOL, h);
    FirstGrown(h);
    FirstConclusion(h);
    assert EMPTY_POOL.store[h.id := h] == map[h.id := h];
  }

  /** Whether a header reaches the selection of a canonical fork. */
  ghost predicate Places(p: Pool, h: BlockHeader) {
    h.id !in p.store && p.canonical in p.forks && Place(p.forks, h).Some?
  }

  ghost function After(p: Pool, h: BlockHeader): Pool
    requires Places(p, h)
  {
    Grown(p.(store := p.store[h.id := h]), h)
  }

  lemma AfterKeeps(w: ParentOf, p: Pool, h: BlockHeader)
    requires Genealogy(w) && WellFormed(w, h) && Settled(w, p) && Places(p, h)
    ensures Advanced(w, Base(p), After(p, h))
    ensures Descends(After(p, h).store) && After(p, h).store == p.store[h.id := h]
    ensures ForkOk(w, After(p, h).store, Base(p), Canonical(p))
    ensures ForkOk(w, After(p, h).store, Base(p), Canonical(After(p, h)))
  {
    hide Grown, Place, Linked;
    var stored := p.(store := p.store[h.id := h]);
    StoredAfter(w, p, h);
    forall k | k in p.forks ensures ForkOk(w, stored.store, Base(p), p.forks[k]) {
      assert ForkOk(w, p.store, Base(p), p.forks[k]);
    }
    GrownKeeps(w, Base(p), stored, h);
  }

  lemma ProcessCases(p: Pool, h: BlockHeader)
    requires Descends(p.store[h.id := h])
    ensures Places(p, h) ==> Process(p, h) == Conclude(After(p, h), p.canonical, Canonical(p))
    ensures !Places(p, h) ==> var r := Process(p, h);
      r.event == None && !r.diverged && r.pool.canonical == p.canonical && r.pool.forks == p.forks
      && r.pool.store == p.store[h.id := h] && p.orphans <= r.pool.orphans <= p.orphans + {h.id}
  {
    hide Conclude, Grown, Place;
  }

  lemma Concluded(w: ParentOf, base: nat, p: Pool, previousId: nat, previous: seq<BlockIdentifier>)
    requires StoreOk(w, p.store) && Descends(p.store) && p.canonical in p.forks
    requires ForkOk(w, p.store, base, Canonical(p)) && ForkOk(w, p.store, base, previous)
    ensures var r := Conclude(p, previousId, previous);
      && (r.diverged <==> Root(Canonical(p)) != Root(previous))
      && (r.diverged ==> r.pool == p.(canonical := previousId) && r.event == None)
      && (!r.diverged ==> (r.event == None <==> Canonical(p) == previous))
      && (!r.diverged && r.event == None ==> r.pool == p)
      && (r.event.Some? ==>
            && GenerateEvent(Canonical(p), previous, p.store).Ok?
            && (r.pool, r.event.value) == Prune(p, GenerateEvent(Canonical(p), previous, p.store).value))
  {
    hide GenerateEvent, Prune, Linked, StoreOk;
    if Root(Canonical(p)) != Root(previous) {
      NoEventMeaning(w, p.store, base, Canonical(p), previous);
    } else {
      var i, j := EventMeaning(w, p.store, base, Canonical(p), previous);
    }
  }

  /**
    A step diverges exactly when the selected fork does not stand on the same
    oldest block as the canonical fork it replaces; then the former canonical
    fork is restored and everything else stays as it was placed.
   */
  lemma DivergesIff(w: ParentOf, p: Pool, h: BlockHeader)
    requires Genealogy(w) && WellFormed(w, h) && Settled(w, p)
    ensures Descends(p.store[h.id := h])
    ensures Process(p, h).diverged <==>
              Places(p, h) && Root(Canonical(After(p, h))) != Root(Canonical(p))
    ensures Process(p, h).diverged ==> Process(p, h) == Step(After(p, h).(canonical := p.canonical), None, true)
  {
    hide Place, Grown, Conclude, Linked, Process;
    StoredAfter(w, p, h);
    ProcessCases(p, h);
    if Places(p, h) {
      AfterKeeps(w, p, h);
      Concluded(w, Base(p), After(p, h), p.canonical, Canonical(p));
    }
  }

  /**
    One step: the canonical fork grows from `before` to `grown`, the event
    describes that, and pruning keeps the newest six blocks.
   */
  ghost predicate Explains(w: ParentOf, p: Pool, h: BlockHeader, r: Step, grown: seq<BlockIdentifier>, i: nat, j: nat)
    requires p.canonical in p.forks && Descends(p.store[h.id := h])
  {
    && Settled(w, r.pool) && Base(r.pool) >= Base(p)
    && Canonical(r.pool) == Newest(grown)
    && ForkOk(w, p.store[h.id := h], Base(p), grown)
    && r.pool.store.Keys <= p.store.Keys + {h.id}
    && (r.event == None ==> grown == Canonical(p))
    && (r.event.Some? ==>
          && Describes(r.event.value, Canonical(p), grown, i, j)
          && ConfirmedBelow(r.event.value, r.pool)
          && (Walk(p.store[h.id := h], grown[0]) == grown ==> Ids(r.event.value.confirmed) == Reverse(grown[|Newest(grown)|..])))
  }

  /** Confirmed blocks lie below everything still in memory, and leave the store. */
  ghost predicate ConfirmedBelow(event: BlockchainEvent, p: Pool)
    requires p.canonical in p.forks
  {
    forall b :: b in Ids(event.confirmed) ==> b.index < Base(p) && b !in p.store
  }

  lemma QuietStep(w: ParentOf, p: Pool, h: BlockHeader)
    requires Genealogy(w) && WellFormed(w, h) && Settled(w, p) && Descends(p.store[h.id := h])
    requires !Places(p, h)
    ensures Explains(w, p, h, Process(p, h), Canonical(p), 0, 0)
  {
    hide Process, Walk, Linked, Describes, ConfirmedBelow;
    StoredAfter(w, p, h);
    ProcessCases(p, h);
    var q := Process(p, h).pool;
    forall k | k in p.forks ensures ForkOk(w, q.store, Base(p), p.forks[k]) {
      assert ForkOk(w, p.store, Base(p), p.forks[k]);
    }
  }

  lemma UnchangedStep(w: ParentOf, p: Pool, h: BlockHeader)
    requires Genealogy(w) && WellFormed(w, h) && Settled(w, p) && Descends(p.store[h.id := h])
    requires Places(p, h) && Canonical(After(p, h)) == Canonical(p)
    requires Process(p, h).pool == After(p, h) && Process(p, h).event == None
    ensures Explains(w, p, h, Process(p, h), Canonical(p), 0, 0)
  {
    hide Process, Walk, Linked, Describes, ConfirmedBelow, Grown, Place, ForkOk, StoreOk, Places;
    AfterKeeps(w, p, h);
  }

  lemma TipOfEvent(q: Pool, event: BlockchainEvent, previous: seq<BlockIdentifier>, i: nat, j: nat)
    requires q.canonical in q.forks && Canonical(q) != [] && |previous| <= MAX_SEGMENT_LENGTH
    requires Describes(event, previous, Canonical(q), i, j) && event.confirmed == []
    ensures EndsAtTip(q, event)
  {
    if j > 0 {
      ReverseAt(Canonical(q)[..j], j - 1);
    } else {
      assert Canonical(q)[j..] == Canonical(q);
    }
  }

  lemma EventAtTip(w: ParentOf, base: nat, q: Pool, previous: seq<BlockIdentifier>)
    requires Advanced(w, base, q) && ForkOk(w, q.store, base, previous) && |previous| <= MAX_SEGMENT_LENGTH
    requires Root(Canonical(q)) == Root(previous)
    ensures GenerateEvent(Canonical(q), previous, q.store).Ok?
    ensures EndsAtTip(q, GenerateEvent(Canonical(q), previous, q.store).value)
  {
    assert ForkOk(w, q.store, base, Canonical(q));
    hide GenerateEvent, Linked, StoreOk, Describes, EndsAtTip, Root, ForksOk;
    var i, j := EventMeaning(w, q.store, base, Canonical(q), previous);
    TipOfEvent(q, GenerateEvent(Canonical(q), previous, q.store).value, previous, i, j);
  }

  /** Pruning leaves the description of the change as it was. */
  lemma PrunedEvent(w: ParentOf, base: nat, q: Pool, event: BlockchainEvent, previous: seq<BlockIdentifier>, i: nat, j: nat)
    requires Genealogy(w) && Advanced(w, base, q) && Descends(q.store) && EndsAtTip(q, event)
    requires Describes(event, previous, Canonical(q), i, j)
    ensures var (r, full), grown := Prune(q, event), Canonical(q);
      && Settled(w, r) && Base(r) >= base && Canonical(r) == Newest(grown) && r.store.Keys <= q.store.Keys
      && Describes(full, previous, grown, i, j) && ConfirmedBelow(full, r)
      && (Walk(q.store, grown[0]) == grown ==> Ids(full.confirmed) == Reverse(grown[|Newest(grown)|..]))
  {
    hide Prune, Linked, GenerateEvent, ForksOk, StoreOk, Settled, Genealogy, Walk, Reverse, Descends;
    PruneMeaning(w, base, q, event);
    if !Prunes(q, event) {
      ShortCanonical(w, base, q, event);
      assert Canonical(q)[|Newest(Canonical(q))|..] == [];
    }
  }

  lemma EventfulStep(w: ParentOf, p: Pool, h: BlockHeader) returns (i: nat, j: nat)
    requires Genealogy(w) && WellFormed(w, h) && Settled(w, p) && Descends(p.store[h.id := h])
    requires Places(p, h) && !Process(p, h).diverged && Process(p, h).event.Some?
    ensures Explains(w, p, h, Process(p, h), Canonical(After(p, h)), i, j)
  {
    hide Process, Linked, Grown, Place, Conclude, GenerateEvent, Prune, Reverse, Describes, ConfirmedBelow, Walk, StoreOk, ForksOk;
    var q := After(p, h);
    ProcessCases(p, h);
    AfterKeeps(w, p, h);
    Concluded(w, Base(p), q, p.canonical, Canonical(p));
    var event := GenerateEvent(Canonical(q), Canonical(p), q.store).value;
    i, j := EventMeaning(w, q.store, Base(p), Canonical(q), Canonical(p));
    TipOfEvent(q, event, Canonical(p), i, j);
    PrunedEvent(w, Base(p), q, event, Canonical(p), i, j);
  }

  lemma StepMeaning(w: ParentOf, p: Pool, h: BlockHeader) returns (grown: seq<BlockIdentifier>, i: nat, j: nat)
    requires Genealogy(w) && WellFormed(w, h) && Settled(w, p)
    requires Descends(p.store[h.id := h]) && !Process(p, h).diverged
    ensures Explains(w, p, h, Process(p, h), grown, i, j)
  {
    hide Place, Grown, Conclude, Linked, Process, Explains;
    grown, i, j := Canonical(p), 0, 0;
    if !Places(p, h) {
      QuietStep(w, p, h);
    } else {
      AfterKeeps(w, p, h);
      ProcessCases(p, h);
      Concluded(w, Base(p), After(p, h), p.canonical, Canonical(p));
      if Process(p, h).event == None {
        UnchangedStep(w, p, h);
      } else {
        i, j := EventfulStep(w, p, h);
        grown := Canonical(After(p, h));
      }
    }
  }

  // ------------------------------------------------------------- followers

  /**
    A follower keeps its chain newest first.  An event makes it pop the rolled
    back blocks, which must be the ones on top, and push the applied ones.
   */
  function Follow(chain: seq<BlockIdentifier>, event: BlockchainEvent): Option<seq<BlockIdentifier>> {
    var gone := Ids(event.RolledBack());
    if gone <= chain then Some(Reverse(Ids(event.Applied())) + chain[|gone|..]) else None
  }

  function FollowAll(chain: seq<BlockIdentifier>, events: seq<BlockchainEvent>): Option<seq<BlockIdentifier>>
    decreases |events|
  {
    if events == [] then Some(chain)
    else
      match Follow(chain, events[0])
      case None => None
      case Some(next) => FollowAll(next, events[1..])
  }

  /** The follower's chain is a real chain that starts with the canonical segment. */
  ghost predicate InStep(w: ParentOf, p: Pool, chain: seq<BlockIdentifier>)
    requires p.canonical in p.forks
  {
    Canonical(p) <= chain && Linked(w, chain)
  }

  lemma FollowDescribed(w: ParentOf, event: BlockchainEvent, previous: seq<BlockIdentifier>, grown: seq<BlockIdentifier>,
                        i: nat, j: nat, chain: seq<BlockIdentifier>)
    requires Describes(event, previous, grown, i, j) && previous != []
    requires previous <= chain && Linked(w, chain) && Linked(w, grown)
    ensures Follow(chain, event) == Some(grown[..j] + chain[i..])
    ensures grown <= grown[..j] + chain[i..]
    ensures Linked(w, grown[..j] + chain[i..])
  {
    ReverseTwice(grown[..j]);
    assert previous[..i] == chain[..i];
    assert grown == grown[..j] + previous[i..];
    assert previous[i..] <= chain[i..];
    Splice(w, grown, j, chain, i);
  }

  /** Two chains that meet in a block splice into one. */
  lemma Splice(w: ParentOf, a: seq<BlockIdentifier>, j: nat, b: seq<BlockIdentifier>, i: nat)
    requires Linked(w, a) && Linked(w, b) && j < |a| && i < |b| && a[j] == b[i]
    ensures Linked(w, a[..j] + b[i..])
  {
    var c := a[..j] + b[i..];
    forall k | 0 <= k < |c| ensures c[k] != NULL_ID && c[k].index == c[0].index - k {
      assert k >= j ==> c[k] == b[i + k - j];
    }
    forall k | 0 <= k < |c| - 1 ensures w(c[k]) == c[k + 1] {
      if k < j {
        assert w(a[k]) == a[k + 1];
      } else {
        assert w(b[i + k - j]) == b[i + k - j + 1];
      }
    }
  }

  /** One header keeps a follower in step. */
  lemma FollowStep(w: ParentOf, p: Pool, h: BlockHeader, chain: seq<BlockIdentifier>)
    requires Genealogy(w) && WellFormed(w, h) && Settled(w, p) && InStep(w, p, chain)
    requires Descends(p.store[h.id := h]) && !Process(p, h).diverged
    ensures var r := Process(p, h);
      && Settled(w, r.pool)
      && (r.event == None ==> InStep(w, r.pool, chain))
      && (r.event.Some? ==> Follow(chain, r.event.value).Some? && InStep(w, r.pool, Follow(chain, r.event.value).value))
  {
    hide Process, Linked, Describes, Follow, ConfirmedBelow, Walk;
    var r := Process(p, h);
    var grown, i, j := StepMeaning(w, p, h);
    assert ForkOk(w, p.store, Base(p), Canonical(p));
    if r.event.Some? {
      FollowDescribed(w, r.event.value, Canonical(p), grown, i, j, chain);
    }
  }

  // ------------------------------------------------------------------ runs

  datatype Run = Run(pool: Pool, events: seq<BlockchainEvent>, diverged: bool)

  ghost predicate AllWellFormed(w: ParentOf, headers: seq<BlockHeader>) {
    forall i :: 0 <= i < |headers| ==> WellFormed(w, headers[i])
  }

  lemma StepSettled(w: ParentOf, p: Pool, h: BlockHeader)
    requires Genealogy(w) && WellFormed(w, h) && Settled(w, p)
    requires Descends(p.store[h.id := h]) && !Process(p, h).diverged
    ensures Settled(w, Process(p, h).pool)
  {
    hide Process, Describes, ConfirmedBelow, Walk, ForkOk, ForksOk;
    var grown, i, j := StepMeaning(w, p, h);
  }

  lemma StepInvariant(w: ParentOf, p: Pool, h: BlockHeader)
    requires Genealogy(w) && WellFormed(w, h) && Invariant(w, p)
    ensures Descends(p.store[h.id := h])
    ensures !Process(p, h).diverged ==> Invariant(w, Process(p, h).pool)
  {
    hide Process, Settled;
    StoredAfter(w, p, h);
    if p == EMPTY_POOL {
      FirstStep(w, h);
    } else if !Process(p, h).diverged {
      StepSettled(w, p, h);
    }
  }

  ghost function Next(w: ParentOf, p: Pool, h: BlockHeader): (r: Step)
    requires Genealogy(w) && WellFormed(w, h) && Invariant(w, p)
    ensures Descends(p.store[h.id := h]) && r == Process(p, h)
    ensures !r.diverged ==> Invariant(w, r.pool)
  {
    StepInvariant(w, p, h);
    Process(p, h)
  }

  /** Headers are processed in order until one of them makes the pool diverge. */
  ghost function Perform(w: ParentOf, p: Pool, headers: seq<BlockHeader>): Run
    requires Genealogy(w) && AllWellFormed(w, headers) && Invariant(w, p)
    decreases |headers|
  {
    hide Process, Next, Invariant;
    if headers == [] then Run(p, [], false)
    else
      var r := Next(w, p, headers[0]);
      if r.diverged then Run(r.pool, [], true)
      else
        var rest := Perform(w, r.pool, headers[1..]);
        rest.(events := EventOf(r) + rest.events)
  }

  lemma EventNoDivergence(p: Pool, h: BlockHeader)
    requires Descends(p.store[h.id := h])
    ensures Process(p, h).event.Some? ==> !Process(p, h).diverged
  {
    hide Grown, Place, GenerateEvent, Prune;
  }

  function EventOf(r: Step): seq<BlockchainEvent> {
    if r.event.Some? then [r.event.value] else []
  }

  /** Whether the pool holds a canonical chain, and a follower is in step with it. */
  ghost predicate Follows(w: ParentOf, p: Pool, chain: seq<BlockIdentifier>) {
    p.canonical in p.forks && InStep(w, p, chain) && (p == EMPTY_POOL ==> chain == [])
  }

  lemma FollowAny(w: ParentOf, p: Pool, h: BlockHeader, chain: seq<BlockIdentifier>)
    requires Genealogy(w) && WellFormed(w, h) && Invariant(w, p) && Follows(w, p, chain)
    ensures var r := Next(w, p, h);
      !r.diverged ==> FollowAll(chain, EventOf(r)).Some? && Follows(w, r.pool, FollowAll(chain, EventOf(r)).value)
  {
    hide Process, Settled, Follow, Linked;
    StepInvariant(w, p, h);
    if p == EMPTY_POOL {
      FirstFollow(w, h);
    } else if !Process(p, h).diverged {
      FollowStep(w, p, h, chain);
      StepNotEmpty(w, p, h);
    }
  }

  lemma FirstFollow(w: ParentOf, h: BlockHeader)
    requires Genealogy(w) && WellFormed(w, h)
    ensures Descends(EMPTY_POOL.store[h.id := h])
    ensures var r := Process(EMPTY_POOL, h);
      && r.event.Some? && Follow([], r.event.value) == Some([h.id])
      && r.pool != EMPTY_POOL && r.pool.canonical in r.pool.forks && InStep(w, r.pool, [h.id])
  {
    hide Process;
    FirstStep(w, h);
    assert Ids([h]) == [h.id];
    assert Reverse([h.id]) + [] == [h.id];
  }

  lemma StepNotEmpty(w: ParentOf, p: Pool, h: BlockHeader)
    requires Genealogy(w) && WellFormed(w, h) && Settled(w, p)
    requires Descends(p.store[h.id := h]) && !Process(p, h).diverged
    ensures var q := Process(p, h).pool; Settled(w, q) && q != EMPTY_POOL && q.canonical in q.forks
  {
    hide Process, Linked;
    StepSettled(w, p, h);
    var q := Process(p, h).pool;
    assert ForkOk(w, q.store, Base(q), Canonical(q));
  }

  lemma {:induction false} FollowConcat(chain: seq<BlockIdentifier>, a: seq<BlockchainEvent>, b: seq<BlockchainEvent>)
    ensures FollowAll(chain, a + b) ==
              match FollowAll(chain, a) case None => None case Some(next) => FollowAll(next, b)
    decreases |a|
  {
    hide Follow;
    if a == [] {
      assert a + b == b;
    } else {
      assert (a + b)[1..] == a[1..] + b;
      match Follow(chain, a[0]) {
        case None =>
        case Some(next) => FollowConcat(next, a[1..], b);
      }
    }
  }

  /**
    Replay: over every run, a follower can carry out every event, and until a
    step diverges its chain starts with exactly the canonical segment.
   */
  lemma {:induction false} Replay(w: ParentOf, p: Pool, headers: seq<BlockHeader>, chain: seq<BlockIdentifier>)
    requires Genealogy(w) && AllWellFormed(w, headers) && Invariant(w, p) && Follows(w, p, chain)
    ensures var run := Perform(w, p, headers);
      && FollowAll(chain, run.events).Some?
      && (!run.diverged ==> Follows(w, run.pool, FollowAll(chain, run.events).value))
    decreases |headers|
  {
    hide Process, Next, Invariant, Follows, FollowAll;
    if headers == [] {
      NothingToFollow(chain);
    } else {
      var r := Next(w, p, headers[0]);
      FollowAny(w, p, headers[0], chain);
      if r.diverged {
        NothingToFollow(chain);
      } else {
        var rest := Perform(w, r.pool, headers[1..]);
        Replay(w, r.pool, headers[1..], FollowAll(chain, EventOf(r)).value);
        FollowConcat(chain, EventOf(r), rest.events);
      }
    }
  }

  lemma NothingToFollow(chain: seq<BlockIdentifier>)
    ensures FollowAll(chain, []) == Some(chain)
  {
  }

  /** From a new pool: the events alone rebuild the canonical chain. */
  lemma ReplayFromStart(w: ParentOf, headers: seq<BlockHeader>)
    requires Genealogy(w) && AllWellFormed(w, headers)
    ensures var run := Perform(w, EMPTY_POOL, headers);
      && FollowAll([], run.events).Some?
      && (!run.diverged ==>
            && run.pool.canonical in run.pool.forks
            && Canonical(run.pool) <= FollowAll([], run.events).value
            && Linked(w, FollowAll([], run.events).value))
  {
    hide Perform, FollowAll;
    Replay(w, EMPTY_POOL, headers, []);
  }
}
