/** What every step of the block pool keeps. */
module PoolInvariants {
  import opened Wrappers
  import opened Sequences
  import opened BlockTypes
  import opened ChainSegments
  import opened SegmentProperties
  import opened PoolSteps

  type ParentOf = BlockIdentifier -> BlockIdentifier

  const MAX_SEGMENT_LENGTH := CONFIRMED_SEGMENT_MINIMUM_LENGTH - 1

  ghost predicate StoreOk(w: ParentOf, store: HeadersStore) {
    forall id :: id in store ==> id != NULL_ID && store[id] == BlockHeader(id, w(id))
  }

  /** A fork is a stored chain that reaches down to the common oldest height. */
  ghost predicate ForkOk(w: ParentOf, store: HeadersStore, base: nat, s: seq<BlockIdentifier>) {
    && s != [] && Linked(w, s) && s[|s| - 1].index == base
    && forall i :: 0 <= i < |s| ==> s[i] in store
  }

  ghost predicate ForksOk(w: ParentOf, store: HeadersStore, base: nat, forks: Forks) {
    forall k :: k in forks ==> ForkOk(w, store, base, forks[k])
  }

  function Canonical(p: Pool): seq<BlockIdentifier>
    requires p.canonical in p.forks
  {
    p.forks[p.canonical]
  }

  /** The oldest height in memory. */
  function Base(p: Pool): nat
    requires p.canonical in p.forks
  {
    if Canonical(p) == [] then 0 else Canonical(p)[|Canonical(p)| - 1].index
  }

  /** All forks share one oldest height, and the canonical one is a longest. */
  ghost predicate Grounded(w: ParentOf, p: Pool) {
    && StoreOk(w, p.store)
    && p.orphans <= p.store.Keys
    && p.canonical in p.forks
    && ForksOk(w, p.store, Base(p), p.forks)
    && forall k :: k in p.forks ==> |p.forks[k]| <= |Canonical(p)|
  }

  ghost predicate Settled(w: ParentOf, p: Pool) {
    Grounded(w, p) && |Canonical(p)| <= MAX_SEGMENT_LENGTH
  }

  ghost predicate Invariant(w: ParentOf, p: Pool) {
    p == EMPTY_POOL || Settled(w, p)
  }

  lemma StoreDescends(w: ParentOf, store: HeadersStore)
    requires Genealogy(w) && StoreOk(w, store)
    ensures Descends(store)
  {
  }

  lemma StoredAfter(w: ParentOf, p: Pool, h: BlockHeader)
    requires Genealogy(w) && Invariant(w, p) && WellFormed(w, h)
    ensures StoreOk(w, p.store[h.id := h])
    ensures Descends(p.store[h.id := h])
  {
    StoreDescends(w, p.store[h.id := h]);
  }

  // ----------------------------------------------------- placing and adopting

  lemma AppendKeeps(w: ParentOf, store: HeadersStore, base: nat, s: seq<BlockIdentifier>, h: BlockHeader)
    requires Genealogy(w) && WellFormed(w, h) && h.id in store && ForkOk(w, store, base, s)
    ensures Append(s, h).Extended? ==> ForkOk(w, store, base, Append(s, h).segment)
    ensures Append(s, h).Forked? ==> ForkOk(w, store, base, Append(s, h).fork)
    ensures Append(s, h).Forked? ==> |Append(s, h).fork| <= |s|
  {
    hide Append, Linked;
    AppendMeaning(w, s, h);
    match Append(s, h) {
      case Refused =>
      case Extended(grown) =>
        assert grown == [h.id] + s;
      case Forked(fork) =>
        var tail := fork[1..];
        assert fork == [h.id] + tail;
        assert tail == s[|s| - |fork| + 1..];
        assert tail[|tail| - 1] == s[|s| - 1];
    }
  }

  lemma PlaceKeeps(w: ParentOf, store: HeadersStore, base: nat, forks: Forks, h: BlockHeader)
    requires Genealogy(w) && WellFormed(w, h) && h.id in store && ForksOk(w, store, base, forks)
    ensures Place(forks, h).Some? ==>
              ForksOk(w, store, base, Place(forks, h).value.forks) && Place(forks, h).value.updated in Place(forks, h).value.forks
  {
    hide Append, ForkOk;
    if AcceptingForks(forks, h) != {} {
      AppendKeeps(w, store, base, forks[Least(AcceptingForks(forks, h))], h);
    }
  }

  /** Adoption only lengthens a fork, on top of what it was. */
  lemma {:induction false} AdoptPassKeeps(w: ParentOf, base: nat, a: Adoption, backlog: seq<BlockIdentifier>, store: HeadersStore)
    requires Genealogy(w) && StoreOk(w, store) && ForkOk(w, store, base, a.segment)
    ensures var r := AdoptPass(a, backlog, store); ForkOk(w, store, base, r.segment) && IsSuffix(a.segment, r.segment)
    decreases |backlog|
  {
    if backlog != [] {
      hide Append, ForkOk;
      var id, rest := backlog[0], backlog[1..];
      if id in a.applied || id !in store {
        AdoptPassKeeps(w, base, a, rest, store);
      } else {
        AppendKeeps(w, store, base, a.segment, store[id]);
        match Append(a.segment, store[id]) {
          case Refused => AdoptPassKeeps(w, base, a, rest, store);
          case Extended(grown) =>
            AppendGrows(a.segment, store[id]);
            var next := Adoption(grown, a.applied + {id});
            AdoptPassKeeps(w, base, next, rest, store);
            SuffixTransitive(a.segment, grown, AdoptPass(next, rest, store).segment);
          case Forked(_) => AdoptPassKeeps(w, base, a.(applied := a.applied + {id}), rest, store);
        }
      }
    }
  }

  lemma AppendGrows(s: seq<BlockIdentifier>, h: BlockHeader)
    ensures Append(s, h).Extended? ==> IsSuffix(s, Append(s, h).segment)
  {
  }

  lemma SuffixTransitive(a: seq<BlockIdentifier>, b: seq<BlockIdentifier>, c: seq<BlockIdentifier>)
    requires IsSuffix(a, b) && IsSuffix(b, c)
    ensures IsSuffix(a, c)
  {
    assert c[|c| - |a|..] == c[|c| - |b|..][|b| - |a|..];
  }

  lemma {:induction false} AdoptKeeps(w: ParentOf, base: nat, a: Adoption, backlog: seq<BlockIdentifier>, store: HeadersStore)
    requires Genealogy(w) && StoreOk(w, store) && ForkOk(w, store, base, a.segment)
    ensures var r := Adopt(a, backlog, store); ForkOk(w, store, base, r.segment) && IsSuffix(a.segment, r.segment)
    decreases Members(backlog) - a.applied
  {
    hide ForkOk, AdoptPass;
    var r := AdoptPass(a, backlog, store);
    AdoptPassKeeps(w, base, a, backlog, store);
    if r.applied != a.applied {
      AdoptShrinks(a, backlog, store);
      AdoptKeeps(w, base, r, backlog, store);
      SuffixTransitive(a.segment, r.segment, Adopt(r, backlog, store).segment);
    }
  }

  lemma AdoptShrinks(a: Adoption, backlog: seq<BlockIdentifier>, store: HeadersStore)
    ensures var r := AdoptPass(a, backlog, store);
      r.applied != a.applied ==> Members(backlog) - r.applied < Members(backlog) - a.applied
  {
    var r := AdoptPass(a, backlog, store);
    if b :| b in r.applied && b !in a.applied {
      assert b in Members(backlog) - a.applied;
    }
  }

  /** When adoption ends, no stored block of the backlog could still be appended. */
  lemma {:induction false} AdoptComplete(a: Adoption, backlog: seq<BlockIdentifier>, store: HeadersStore, id: BlockIdentifier)
    requires id in backlog && id in store
    ensures var r := Adopt(a, backlog, store); id in r.applied || Append(r.segment, store[id]) == Refused
    decreases Members(backlog) - a.applied
  {
    hide Append;
    var r := AdoptPass(a, backlog, store);
    AdoptShrinks(a, backlog, store);
    if r.applied == a.applied {
      IdlePass(a, backlog, store, id);
    } else {
      AdoptComplete(r, backlog, store, id);
    }
  }

  lemma {:induction false} IdlePass(a: Adoption, backlog: seq<BlockIdentifier>, store: HeadersStore, id: BlockIdentifier)
    requires AdoptPass(a, backlog, store).applied == a.applied
    requires id in backlog && id in store
    ensures AdoptPass(a, backlog, store) == a
    ensures id in a.applied || Append(a.segment, store[id]) == Refused
    decreases |backlog|
  {
    hide Append;
    var rest := backlog[1..];
    IdlePassKeeps(a, rest, store);
    if id != backlog[0] {
      assert id in rest;
      IdlePass(a, rest, store, id);
    }
  }

  lemma {:induction false} IdlePassKeeps(a: Adoption, backlog: seq<BlockIdentifier>, store: HeadersStore)
    ensures AdoptPass(a, backlog, store).applied == a.applied ==> AdoptPass(a, backlog, store) == a
    decreases |backlog|
  {
    hide Append;
    if backlog != [] {
      IdlePassKeeps(a, backlog[1..], store);
    }
  }

  lemma GrowKeeps(w: ParentOf, base: nat, placed: Placement, orphans: set<BlockIdentifier>, store: HeadersStore)
    requires Genealogy(w) && StoreOk(w, store) && orphans <= store.Keys
    requires ForksOk(w, store, base, placed.forks) && placed.updated in placed.forks
    ensures ForksOk(w, store, base, Grow(placed, orphans, store).0)
    ensures Grow(placed, orphans, store).1 <= orphans
  {
    hide ForkOk, Adopt;
    AdoptKeeps(w, base, Adoption(placed.forks[placed.updated], {}), InOrder(orphans), store);
  }

  /** The pool of a step right before the change is described. */
  ghost predicate Advanced(w: ParentOf, base: nat, p: Pool) {
    && StoreOk(w, p.store) && p.orphans <= p.store.Keys
    && ForksOk(w, p.store, base, p.forks) && IsLongest(p.forks, p.canonical)
  }

  lemma GrownKeeps(w: ParentOf, base: nat, p: Pool, h: BlockHeader)
    requires Genealogy(w) && WellFormed(w, h) && StoreOk(w, p.store) && h.id in p.store && p.orphans <= p.store.Keys
    requires ForksOk(w, p.store, base, p.forks) && Place(p.forks, h).Some?
    ensures Advanced(w, base, Grown(p, h))
  {
    hide ForkOk, Place, Grow, IsLongest;
    PlaceKeeps(w, p.store, base, p.forks, h);
    GrowKeeps(w, base, Place(p.forks, h).value, p.orphans, p.store);
  }

  /** The very first header becomes the only block of the only fork. */
  lemma FirstGrown(h: BlockHeader)
    ensures Place(EMPTY_POOL.forks, h) == Some(Placement(map[0 := [h.id]], 0))
    ensures var p := Grown(EMPTY_POOL.(store := map[h.id := h]), h);
            p == Pool(0, {}, map[0 := [h.id]], map[h.id := h])
  {
    assert AcceptingForks(EMPTY_POOL.forks, h) == {0};
    assert [h.id] + [] == [h.id];
    assert EMPTY_POOL.forks[0 := [h.id]] == map[0 := [h.id]];
    var p := Grown(EMPTY_POOL.(store := map[h.id := h]), h);
    assert p.canonical in map[0 := [h.id]];
  }

  // ------------------------------------------------------------ ancestor walk

  lemma {:induction false} WalkStep(w: ParentOf, store: HeadersStore, id: BlockIdentifier)
    requires Genealogy(w) && StoreOk(w, store) && Descends(store) && id in store
    ensures Walk(store, id) == [id] + Walk(store, w(id))
  {
  }

  /** The walk from a tip runs down the whole chain first. */
  lemma {:induction false} WalkFollows(w: ParentOf, store: HeadersStore, s: seq<BlockIdentifier>)
    requires Genealogy(w) && StoreOk(w, store) && Descends(store)
    requires s != [] && Linked(w, s) && forall i :: 0 <= i < |s| ==> s[i] in store
    ensures Walk(store, s[0]) == s + Walk(store, w(s[|s| - 1]))
  {
    hide Walk;
    WalkStep(w, store, s[0]);
    if |s| == 1 {
      assert s == [s[0]];
    } else {
      LinkedTail(w, s, 1);
      assert w(s[0]) == s[1];
      var rest := s[1..];
      WalkFollows(w, store, rest);
      assert rest[|rest| - 1] == s[|s| - 1];
      assert s == [s[0]] + rest;
      Assoc([s[0]], rest, Walk(store, w(s[|s| - 1])));
    }
  }

  lemma {:induction false} WalkLinked(w: ParentOf, store: HeadersStore, id: BlockIdentifier)
    requires Genealogy(w) && StoreOk(w, store) && Descends(store)
    ensures Linked(w, Walk(store, id))
    ensures Walk(store, id) != [] ==> Walk(store, id)[0] == id
    decreases id.index, id in store
  {
    if id in store {
      WalkStep(w, store, id);
      if w(id) in store {
        assert w(id).index < id.index;
        WalkLinked(w, store, w(id));
        LinkedCons(w, id, Walk(store, w(id)));
      } else {
        assert Walk(store, w(id)) == [];
        assert Walk(store, id) == [id];
      }
    }
  }

  lemma LinkedCons(w: ParentOf, id: BlockIdentifier, s: seq<BlockIdentifier>)
    requires Genealogy(w) && Linked(w, s) && s != [] && w(id) == s[0] && id != NULL_ID && s[0].index < id.index
    ensures Linked(w, [id] + s)
  {
    var r := [id] + s;
    forall i | 0 <= i < |r| - 1 ensures w(r[i]) == r[i + 1] {
      if i > 0 {
        assert r[i] == s[i - 1] && w(s[i - 1]) == s[i];
      }
    }
  }

  // ----------------------------------------------------------------- pruning

  lemma {:induction false} BelowIsLower(s: seq<BlockIdentifier>, height: nat, b: BlockIdentifier)
    requires b in Below(s, height)
    ensures b.index < height
  {
    if b in Below(s[1..], height) {
      BelowIsLower(s[1..], height, b);
    }
  }

  /** Pruning the store spares everything at or above the cut-off height. */
  lemma StoreKept(p: Pool, height: nat, confirmed: seq<BlockIdentifier>, store: HeadersStore, id: BlockIdentifier)
    requires forall i :: 0 <= i < |confirmed| ==> confirmed[i].index < height
    requires store == p.store - Members(confirmed) - (PrunedIds(p.forks, height) + Outdated(p.orphans, height))
    requires id in p.store && id.index >= height
    ensures id in store && store[id] == p.store[id]
  {
    if id in PrunedIds(p.forks, height) {
      var k :| k in p.forks && id in Below(p.forks[k], height);
      BelowIsLower(p.forks[k], height, id);
    }
  }

  lemma CutFork(w: ParentOf, store: HeadersStore, base: nat, left: HeadersStore, height: nat, s: seq<BlockIdentifier>)
    requires ForkOk(w, store, base, s)
    requires forall id :: id in store && id.index >= height ==> id in left
    ensures s[0].index < height ==> AtOrAbove(s, height) == []
    ensures s[0].index >= height ==>
              && ForkOk(w, left, if base <= height then height else base, AtOrAbove(s, height))
              && AtOrAbove(s, height) == s[..Kept(s, height)] && Kept(s, height) > 0
  {
    PruneMeaning(w, s, height);
    var k := Kept(s, height);
    if k > 0 {
      LinkedTail(w, s, k);
      assert s[|s| - 1].index == s[0].index - (|s| - 1);
      assert s[k - 1].index == s[0].index - (k - 1);
    }
  }

  /** The event of a step carries nothing confirmed before pruning, and ends at the canonical tip. */
  ghost predicate EndsAtTip(p: Pool, event: BlockchainEvent)
    requires p.canonical in p.forks
  {
    && event.confirmed == []
    && Canonical(p) != []
    && if event.Applied() == [] then |Canonical(p)| <= MAX_SEGMENT_LENGTH
       else event.Applied()[|event.Applied()| - 1].id == Canonical(p)[0]
  }

  ghost function FullWalk(p: Pool): seq<BlockIdentifier>
    requires p.canonical in p.forks && Canonical(p) != [] && Descends(p.store)
  {
    Walk(p.store, Canonical(p)[0])
  }

  /** Whether a step prunes: something was applied and enough ancestors are stored. */
  ghost predicate Prunes(p: Pool, event: BlockchainEvent)
    requires p.canonical in p.forks && Canonical(p) != [] && Descends(p.store)
  {
    event.Applied() != [] && |FullWalk(p)| >= CONFIRMED_SEGMENT_MINIMUM_LENGTH
  }

  lemma WalkHeights(w: ParentOf, base: nat, p: Pool)
    requires Genealogy(w) && Advanced(w, base, p) && Descends(p.store) && Canonical(p) != []
    requires |FullWalk(p)| >= 7
    ensures FullWalk(p)[5].index == Canonical(p)[0].index - 5
    ensures forall i :: 0 <= i < |FullWalk(p)[6..]| ==> FullWalk(p)[6..][i].index < FullWalk(p)[5].index
    ensures forall i :: 0 <= i < |FullWalk(p)[6..]| ==> FullWalk(p)[6..][i] in p.store
  {
    hide ForksOk, StoreOk, Genealogy;
    WalkLinked(w, p.store, Canonical(p)[0]);
  }

  lemma PruneUnfolds(p: Pool, event: BlockchainEvent)
    requires p.canonical in p.forks && Descends(p.store) && EndsAtTip(p, event)
    ensures !Prunes(p, event) ==> Prune(p, event) == (p, event)
    ensures Prunes(p, event) ==> |FullWalk(p)| >= 7
    ensures Prunes(p, event) ==> var (q, full), height := Prune(p, event), FullWalk(p)[5].index;
            && q == Pool(p.canonical, p.orphans - Outdated(p.orphans, height), PruneForks(p.forks, height),
                         p.store - Members(FullWalk(p)[6..]) - (PrunedIds(p.forks, height) + Outdated(p.orphans, height)))
            && full == event.(confirmed := Reverse(Lookup(FullWalk(p)[6..], p.store).value))
  {
    hide Outdated, PruneForks, PrunedIds, Members, Lookup, Walk, Reverse;
  }

  lemma ConfirmedIds(w: ParentOf, store: HeadersStore, ids: seq<BlockIdentifier>)
    requires StoreOk(w, store) && forall i :: 0 <= i < |ids| ==> ids[i] in store
    ensures Ids(Reverse(Lookup(ids, store).value)) == Reverse(ids)
  {
    var headers := Lookup(ids, store).value;
    assert Ids(headers) == ids;
    IdsReverse(headers);
  }

  lemma {:induction false} IdsReverse(headers: seq<BlockHeader>)
    ensures Ids(Reverse(headers)) == Reverse(Ids(headers))
  {
    if headers != [] {
      IdsReverse(headers[1..]);
      assert Ids(headers)[1..] == Ids(headers[1..]);
      assert Ids(Reverse(headers[1..]) + [headers[0]]) == Ids(Reverse(headers[1..])) + [headers[0].id];
    }
  }

  lemma CutForkLength(w: ParentOf, base: nat, height: nat, tip: nat, s: seq<BlockIdentifier>)
    requires Linked(w, s) && s != [] && s[|s| - 1].index == base && s[0].index <= tip && height == tip - 5
    ensures Kept(s, height) <= (if tip - base + 1 < 6 then tip - base + 1 else 6)
    ensures s[0].index == tip ==> Kept(s, height) == if |s| < 6 then |s| else 6
  {
    assert s[|s| - 1].index == s[0].index - (|s| - 1);
  }

  /** What pruning leaves of one fork, compared with the canonical one. */
  lemma CutOneFork(w: ParentOf, base: nat, store: HeadersStore, left: HeadersStore, height: nat,
                   longest: seq<BlockIdentifier>, s: seq<BlockIdentifier>)
    requires ForkOk(w, store, base, s) && ForkOk(w, store, base, longest) && |s| <= |longest|
    requires height == longest[0].index - 5
    requires forall id :: id in store && id.index >= height ==> id in left
    ensures var cut := AtOrAbove(s, height);
            cut != [] ==>
              && ForkOk(w, left, if base <= height then height else base, cut)
              && |cut| <= (if |longest| < 6 then |longest| else 6)
    ensures s == longest ==> AtOrAbove(s, height) == s[..if |s| < 6 then |s| else 6]
  {
    hide AtOrAbove;
    TipHeight(w, base, store, s);
    TipHeight(w, base, store, longest);
    CutFork(w, store, base, left, height, s);
    CutForkLength(w, base, height, longest[0].index, s);
  }

  /** Pruning keeps the pool grounded, now on at most six blocks. */
  lemma PruneKeeps(w: ParentOf, base: nat, p: Pool, height: nat, q: Pool)
    requires Advanced(w, base, p) && Canonical(p) != []
    requires height == Canonical(p)[0].index - 5
    requires q.canonical == p.canonical && q.orphans == p.orphans - Outdated(p.orphans, height)
    requires q.forks == PruneForks(p.forks, height)
    requires q.store.Keys <= p.store.Keys && forall id :: id in q.store ==> q.store[id] == p.store[id]
    requires forall id :: id in p.store && id.index >= height ==> id in q.store
    ensures q.canonical in q.forks
    ensures Canonical(q) == Canonical(p)[..if |Canonical(p)| < 6 then |Canonical(p)| else 6]
    ensures Base(q) == if base <= height then height else base
    ensures Settled(w, q)
  {
    hide AtOrAbove, Linked;
    forall k | k in p.forks && AtOrAbove(p.forks[k], height) != []
      ensures ForkOk(w, q.store, if base <= height then height else base, AtOrAbove(p.forks[k], height))
      ensures |AtOrAbove(p.forks[k], height)| <= if |Canonical(p)| < 6 then |Canonical(p)| else 6
    {
      CutOneFork(w, base, p.store, q.store, height, Canonical(p), p.forks[k]);
    }
    CutOneFork(w, base, p.store, q.store, height, Canonical(p), Canonical(p));
    assert q.canonical in q.forks;
    assert Base(q) == if base <= height then height else base;
  }

  lemma TipHeight(w: ParentOf, base: nat, store: HeadersStore, s: seq<BlockIdentifier>)
    requires ForkOk(w, store, base, s)
    ensures s[0].index == base + |s| - 1
  {
    assert s[|s| - 1].index == s[0].index - (|s| - 1);
  }
}
