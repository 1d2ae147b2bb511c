/**
  Pools that hold nothing but their forks: no orphan waits and every stored
  block is on a fork.  One step of such a pool can be computed from the forks.
 */
module TidyPools {
  import opened Wrappers
  import opened Sequences
  import opened BlockTypes
  import opened ChainSegments
  import opened SegmentProperties
  import opened PoolSteps
  import opened PoolInvariants
  import opened PoolRuns

  function Blocks(forks: Forks): set<BlockIdentifier> {
    set k, b | k in forks && b in forks[k] :: b
  }

  function StoreOf(w: ParentOf, ids: set<BlockIdentifier>): HeadersStore {
    map id | id in ids :: BlockHeader(id, w(id))
  }

  function Tidy(w: ParentOf, canonical: nat, forks: Forks): Pool {
    Pool(canonical, {}, forks, StoreOf(w, Blocks(forks)))
  }

  /** A new header has been placed, `next` are the forks with it, and `k` is the longest. */
  ghost predicate Leads(w: ParentOf, c: nat, forks: Forks, h: BlockHeader, next: Forks, k: nat) {
    && Genealogy(w) && WellFormed(w, h) && Settled(w, Tidy(w, c, forks))
    && h.id !in Blocks(forks) && Blocks(next) == Blocks(forks) + {h.id}
    && Place(forks, h).Some? && Place(forks, h).value.forks == next && IsLongest(next, k)
  }

  lemma SelectUnique(forks: Forks, k: nat)
    requires IsLongest(forks, k)
    ensures Select(forks) == k
  {
    var j := Select(forks);
    assert IsLongest(forks, j);
  }

  lemma NothingAdopted(placed: Placement, store: HeadersStore)
    requires placed.updated in placed.forks
    ensures Grow(placed, {}, store) == (placed.forks, {})
  {
    var start := Adoption(placed.forks[placed.updated], {});
    assert InOrder({}) == [];
    assert AdoptPass(start, InOrder({}), store) == start;
    assert Adopt(start, InOrder({}), store) == start;
    assert placed.forks[placed.updated := start.segment] == placed.forks;
    assert Grow(placed, {}, store).1 == {};
  }

  /** With nothing waiting, the pool after a placement has the new forks and the longest of them. */
  lemma CleanAfter(p: Pool, h: BlockHeader, k: nat)
    requires p.orphans == {} && Places(p, h) && IsLongest(Place(p.forks, h).value.forks, k)
    ensures After(p, h) == Pool(k, {}, Place(p.forks, h).value.forks, p.store[h.id := h])
  {
    hide Place, Grow, IsLongest;
    SelectUnique(Place(p.forks, h).value.forks, k);
    PlacedIn(p.forks, h);
    NothingAdopted(Place(p.forks, h).value, p.store[h.id := h]);
  }

  lemma TidyAfter(w: ParentOf, c: nat, forks: Forks, h: BlockHeader, next: Forks, k: nat)
    requires Leads(w, c, forks, h, next, k)
    ensures Places(Tidy(w, c, forks), h) && After(Tidy(w, c, forks), h) == Tidy(w, k, next)
  {
    hide Place, After, IsLongest, Genealogy, ForksOk;
    var store := Tidy(w, c, forks).store[h.id := h];
    assert store == StoreOf(w, Blocks(next));
    CleanAfter(Tidy(w, c, forks), h, k);
  }

  lemma PlacedIn(forks: Forks, h: BlockHeader)
    requires Place(forks, h).Some?
    ensures Place(forks, h).value.updated in Place(forks, h).value.forks
  {
    hide Append;
  }

  lemma NothingLower(w: ParentOf, store: HeadersStore, base: nat, forks: Forks, b: BlockIdentifier)
    requires ForksOk(w, store, base, forks) && b.index < base
    ensures b !in Blocks(forks)
  {
    forall k | k in forks ensures b !in forks[k] {
      assert ForkOk(w, store, base, forks[k]);
      TipHeight(w, base, store, forks[k]);
    }
  }

  /** The walk down from a tip of a tidy pool is the fork itself. */
  lemma TidyWalk(w: ParentOf, base: nat, q: Pool, s: seq<BlockIdentifier>)
    requires Genealogy(w) && StoreOk(w, q.store) && Descends(q.store) && ForksOk(w, q.store, base, q.forks)
    requires q.store.Keys == Blocks(q.forks) && ForkOk(w, q.store, base, s)
    ensures Walk(q.store, s[0]) == s
  {
    hide Walk, ForksOk, Linked, Blocks;
    WalkFollows(w, q.store, s);
    var below := w(Root(s));
    assert below == NULL_ID || below.index < base;
    if below.index < base {
      NothingLower(w, q.store, base, q.forks, below);
    }
    BareWalk(q.store, below);
  }

  lemma BareWalk(store: HeadersStore, id: BlockIdentifier)
    requires Descends(store) && id !in store
    ensures Walk(store, id) == []
  {
  }

  lemma TidyForks(w: ParentOf, c: nat, forks: Forks)
    requires Settled(w, Tidy(w, c, forks))
    ensures c in forks && ForksOk(w, Tidy(w, c, forks).store, Base(Tidy(w, c, forks)), forks)
  {
  }

  /** The canonical fork stays the longest: no event. */
  lemma StaysQuiet(w: ParentOf, c: nat, forks: Forks, h: BlockHeader, next: Forks, k: nat)
    requires Leads(w, c, forks, h, next, k) && next[k] == forks[c]
    ensures Descends(Tidy(w, c, forks).store[h.id := h])
    ensures Process(Tidy(w, c, forks), h) == Step(Tidy(w, k, next), None, false)
  {
    hide Process, After, Place, IsLongest, Genealogy, ForksOk;
    var p := Tidy(w, c, forks);
    StoredAfter(w, p, h);
    TidyAfter(w, c, forks, h, next, k);
    ProcessCases(p, h);
  }

  /** The longest fork stands on another block: the pool keeps the former canonical fork. */
  lemma LeavesRoot(w: ParentOf, c: nat, forks: Forks, h: BlockHeader, next: Forks, k: nat)
    requires Leads(w, c, forks, h, next, k) && c in forks && Root(next[k]) != Root(forks[c])
    ensures Descends(Tidy(w, c, forks).store[h.id := h])
    ensures Process(Tidy(w, c, forks), h) == Step(Tidy(w, c, next), None, true)
  {
    assert k in next;
    hide Process, After, Place, Conclude, IsLongest, Linked, Settled, Genealogy, ForkOk, ForksOk, StoreOk, Blocks, StoreOf, Root;
    var p := Tidy(w, c, forks);
    StoredAfter(w, p, h);
    TidyAfter(w, c, forks, h, next, k);
    ProcessCases(p, h);
    AfterKeeps(w, p, h);
    Concluded(w, Base(p), After(p, h), p.canonical, Canonical(p));
  }

  /** What is left in memory once the canonical fork has `s` as its blocks. */
  function LeftOver(forks: Forks, s: seq<BlockIdentifier>): Forks {
    if |s| < 7 || s[0].index < 5 then forks else PruneForks(forks, s[0].index - 5)
  }

  /** The canonical fork changes on the same oldest block: an event, and pruning to six blocks. */
  lemma Moves(w: ParentOf, c: nat, forks: Forks, h: BlockHeader, next: Forks, k: nat)
    requires Leads(w, c, forks, h, next, k) && c in forks
    requires Root(next[k]) == Root(forks[c]) && next[k] != forks[c]
    ensures Descends(Tidy(w, c, forks).store[h.id := h])
    ensures var r := Process(Tidy(w, c, forks), h);
            r.event.Some? && !r.diverged && r.pool == Tidy(w, k, LeftOver(next, next[k]))
  {
    assert k in next;
    hide Process, After, Place, Settled, Genealogy, LeftOver, StoreOf, Blocks, Root, Descends, IsLongest;
    StoredAfter(w, Tidy(w, c, forks), h);
    TidyAfter(w, c, forks, h, next, k);
    Moved(w, Tidy(w, c, forks), h, Tidy(w, k, next));
  }

  lemma Moved(w: ParentOf, p: Pool, h: BlockHeader, q: Pool)
    requires Genealogy(w) && WellFormed(w, h) && Settled(w, p) && Descends(p.store[h.id := h])
    requires Places(p, h) && q == After(p, h) == Tidy(w, q.canonical, q.forks)
    requires q.canonical in q.forks && Root(Canonical(q)) == Root(Canonical(p)) && Canonical(q) != Canonical(p)
    ensures var r := Process(p, h);
            r.event.Some? && !r.diverged && r.pool == Tidy(w, q.canonical, LeftOver(q.forks, Canonical(q)))
  {
    hide *;
    AtMostSix(w, p);
    AfterKeeps(w, p, h);
    ProcessCases(p, h);
    AdvancedMeans(w, Base(p), q);
    TidyKeys(w, q.canonical, q.forks);
    Concluded(w, Base(p), q, p.canonical, Canonical(p));
    EventAtTip(w, Base(p), q, Canonical(p));
    TidyWalk(w, Base(p), q, Canonical(q));
    TidyPruned(w, Base(p), q, GenerateEvent(Canonical(q), Canonical(p), q.store).value);
  }

  lemma AdvancedMeans(w: ParentOf, base: nat, q: Pool)
    requires Advanced(w, base, q)
    ensures StoreOk(w, q.store) && ForksOk(w, q.store, base, q.forks) && q.canonical in q.forks && Canonical(q) != []
  {
  }

  lemma TidyKeys(w: ParentOf, canonical: nat, forks: Forks)
    ensures Tidy(w, canonical, forks).store.Keys == Blocks(forks)
  {
    hide Blocks;
  }

  lemma AtMostSix(w: ParentOf, p: Pool)
    requires Settled(w, p)
    ensures p.canonical in p.forks && |Canonical(p)| <= MAX_SEGMENT_LENGTH
  {
  }

  lemma TidyPruned(w: ParentOf, base: nat, q: Pool, event: BlockchainEvent)
    requires Genealogy(w) && Advanced(w, base, q) && Descends(q.store) && EndsAtTip(q, event)
    requires q == Tidy(w, q.canonical, q.forks) && Walk(q.store, Canonical(q)[0]) == Canonical(q)
    ensures Prune(q, event).0 == Tidy(w, q.canonical, LeftOver(q.forks, Canonical(q)))
  {
    hide *;
    AdvancedMeans(w, base, q);
    PrunesOnLength(q, event);
    if Prunes(q, event) {
      CutToSix(w, base, q, event);
    } else {
      PruneUnfolds(q, event);
    }
  }

  lemma PrunesOnLength(q: Pool, event: BlockchainEvent)
    requires q.canonical in q.forks && Canonical(q) != [] && Descends(q.store) && EndsAtTip(q, event)
    requires Walk(q.store, Canonical(q)[0]) == Canonical(q)
    ensures FullWalk(q) == Canonical(q)
    ensures Prunes(q, event) <==> |Canonical(q)| >= 7
    ensures LeftOver(q.forks, Canonical(q)) == if !Prunes(q, event) || Canonical(q)[0].index < 5 then q.forks
                                               else PruneForks(q.forks, Canonical(q)[0].index - 5)
  {
    hide Walk, Descends, PruneForks;
  }

  ghost predicate AllBelow(s: seq<BlockIdentifier>, height: nat) {
    forall i :: 0 <= i < |s| ==> s[i].index < height
  }

  lemma WalkCut(w: ParentOf, base: nat, q: Pool)
    requires Genealogy(w) && Advanced(w, base, q) && Descends(q.store) && Canonical(q) != [] && |FullWalk(q)| >= 7
    ensures FullWalk(q)[5].index == Canonical(q)[0].index - 5
    ensures AllBelow(FullWalk(q)[6..], FullWalk(q)[5].index)
  {
    WalkHeights(w, base, q);
  }

  lemma CutToSix(w: ParentOf, base: nat, q: Pool, event: BlockchainEvent)
    requires Genealogy(w) && Advanced(w, base, q) && Descends(q.store) && EndsAtTip(q, event)
    requires q == Tidy(w, q.canonical, q.forks) && FullWalk(q) == Canonical(q) && Prunes(q, event)
    ensures Canonical(q)[0].index >= 5
    ensures Prune(q, event).0 == Tidy(w, q.canonical, PruneForks(q.forks, Canonical(q)[0].index - 5))
  {
    assert q.canonical in q.forks && Canonical(q) != [];
    hide Prune, PruneForks, PrunedIds, Genealogy, Reverse, Lookup, Descends, Outdated, Advanced, Walk, Blocks, StoreOf;
    hide Members, EndsAtTip, ForkOk, ForksOk, StoreOk, IsLongest, AllBelow;
    PruneUnfolds(q, event);
    WalkCut(w, base, q);
    var height := FullWalk(q)[5].index;
    CutStore(w, q.forks, height, FullWalk(q)[6..]);
    NoneOutdated(height);
  }

  lemma NoneOutdated(height: nat)
    ensures Outdated({}, height) == {}
  {
  }

  /** Pruning leaves in the store what it leaves on the forks. */
  lemma CutStore(w: ParentOf, next: Forks, height: nat, confirmed: seq<BlockIdentifier>)
    requires AllBelow(confirmed, height)
    ensures StoreOf(w, Blocks(next)) - Members(confirmed) - (PrunedIds(next, height) + Outdated({}, height))
         == StoreOf(w, Blocks(PruneForks(next, height)))
  {
    CutBlocks(next, height, confirmed);
    hide Blocks, PrunedIds, PruneForks, Members, Outdated;
  }

  lemma CutBlocks(next: Forks, height: nat, confirmed: seq<BlockIdentifier>)
    requires AllBelow(confirmed, height)
    ensures Blocks(next) - Members(confirmed) - (PrunedIds(next, height) + Outdated({}, height)) == Blocks(PruneForks(next, height))
  {
    hide AtOrAbove, Below;
    forall b, k | k in next
      ensures b in AtOrAbove(next[k], height) <==> b in next[k] && b.index >= height
      ensures b in Below(next[k], height) <==> b in next[k] && b.index < height
    {
      Parts(next[k], height, b);
    }
    var cut := PruneForks(next, height);
    forall k, b | k in next && b in next[k] && b.index >= height ensures b in Blocks(cut) {
      assert b in AtOrAbove(next[k], height);
      assert k in cut && b in cut[k];
    }
    forall b | b in Blocks(cut) ensures b in Blocks(next) && b.index >= height {
      var k :| k in cut && b in cut[k];
      assert b in AtOrAbove(next[k], height);
    }
  }

  lemma {:induction false} Parts(s: seq<BlockIdentifier>, height: nat, b: BlockIdentifier)
    ensures b in AtOrAbove(s, height) <==> b in s && b.index >= height
    ensures b in Below(s, height) <==> b in s && b.index < height
  {
    if s != [] {
      Parts(s[1..], height, b);
      assert s == [s[0]] + s[1..];
    }
  }

  // ------------------------------------------------------------- placement

  /** Only fork `k` holds the parent of the header, and none the block itself. */
  ghost predicate OnlyParent(w: ParentOf, store: HeadersStore, base: nat, forks: Forks, h: BlockHeader, k: nat) {
    && Genealogy(w) && WellFormed(w, h) && ForksOk(w, store, base, forks)
    && k in forks && h.parent in forks[k] && h.id !in Blocks(forks)
    && forall j :: j in forks && j != k ==> h.parent !in forks[j]
  }

  lemma OneAccepts(w: ParentOf, store: HeadersStore, base: nat, forks: Forks, h: BlockHeader, k: nat)
    requires OnlyParent(w, store, base, forks, h, k)
    ensures AcceptingForks(forks, h) == {k}
    ensures Linked(w, forks[k])
  {
    hide Append, Linked, Genealogy;
    forall j | j in forks ensures Linked(w, forks[j]) && (Append(forks[j], h) != Refused <==> j == k) {
      assert ForkOk(w, store, base, forks[j]);
      AppendMeaning(w, forks[j], h);
    }
  }

  lemma BlocksWith(forks: Forks, h: BlockHeader, k: nat, s: seq<BlockIdentifier>)
    requires h.id in s && (forall b :: b in s ==> b == h.id || b in Blocks(forks)) && (k in forks ==> forall b :: b in forks[k] ==> b in s)
    ensures Blocks(forks[k := s]) == Blocks(forks) + {h.id}
  {
    var next := forks[k := s];
    assert k in next && next[k] == s;
    forall b | b in Blocks(forks) ensures b in Blocks(next) {
      var j :| j in forks && b in forks[j];
      assert j in next;
    }
  }

  lemma Extends(w: ParentOf, store: HeadersStore, base: nat, forks: Forks, h: BlockHeader, k: nat)
    requires k in forks && forks[k] != [] && forks[k][0] == h.parent && OnlyParent(w, store, base, forks, h, k)
    ensures var next := forks[k := [h.id] + forks[k]];
            Place(forks, h) == Some(Placement(next, k)) && Blocks(next) == Blocks(forks) + {h.id}
  {
    hide Append, Linked, Genealogy;
    OneAccepts(w, store, base, forks, h, k);
    AppendMeaning(w, forks[k], h);
    BlocksWith(forks, h, k, [h.id] + forks[k]);
  }

  /** A new fork goes under the number of forks. */
  function WithBranch(forks: Forks, fork: seq<BlockIdentifier>): Forks {
    forks[|forks| := fork]
  }

  lemma Branches(w: ParentOf, store: HeadersStore, base: nat, forks: Forks, h: BlockHeader, k: nat, i: nat)
    requires k in forks && 0 < i < |forks[k]| && forks[k][i] == h.parent && OnlyParent(w, store, base, forks, h, k)
    ensures Place(forks, h) == Some(Placement(WithBranch(forks, [h.id] + forks[k][i..]), |forks|))
    ensures |forks| !in forks ==> Blocks(WithBranch(forks, [h.id] + forks[k][i..])) == Blocks(forks) + {h.id}
  {
    hide Linked, Genealogy;
    OneAccepts(w, store, base, forks, h, k);
    BranchFork(w, forks[k], h, i);
    var fork := [h.id] + forks[k][i..];
    if |forks| !in forks {
      assert forall b :: b in forks[k][i..] ==> b in forks[k];
      BlocksWith(forks, h, |forks|, fork);
    }
  }

  /** A block whose parent lies inside a chain forks off right above that parent. */
  lemma BranchFork(w: ParentOf, s: seq<BlockIdentifier>, h: BlockHeader, i: nat)
    requires Genealogy(w) && WellFormed(w, h) && Linked(w, s) && 0 < i < |s| && s[i] == h.parent && h.id !in s
    ensures Append(s, h) == Forked([h.id] + s[i..])
  {
    hide Append;
    AppendMeaning(w, s, h);
    assert h.parent == s[i] != s[0];
    var fork := Append(s, h).fork;
    assert fork[1] == h.parent by { assert w(fork[0]) == fork[1]; }
    assert fork[1..][0] == s[|s| - |fork| + 1];
    assert |s| - |fork| + 1 == i;
    assert fork == [fork[0]] + fork[1..];
  }
}
