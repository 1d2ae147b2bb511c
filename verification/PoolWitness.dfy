/**
  Two runs from the new pool that show where its promises end: one in which
  two forks lose their common oldest block and the pool diverges, and one in
  which a new fork takes the key of the only live one.
 */
module PoolWitness {
  import opened Wrappers
  import opened Sequences
  import opened BlockTypes
  import opened ChainSegments
  import opened SegmentProperties
  import opened PoolSteps
  import opened PoolInvariants
  import opened PoolRuns
  import opened PoolGuarantees
  import opened PoolLimits
  import opened TidyPools
  import opened SteadyPools

  // ------------------------------------------------------- the block tree

  /** The block of a branch at a height; every block has a hash of its own. */
  function Id(branch: nat, height: nat): BlockIdentifier {
    BlockIdentifier(height, 4 * height + branch)
  }

  predicate On(id: BlockIdentifier, branch: nat) {
    id.hash == 4 * id.index + branch
  }

  function A(height: nat): BlockIdentifier { Id(1, height) }

  function B(height: nat): BlockIdentifier { Id(2, height) }

  function C(height: nat): BlockIdentifier { Id(3, height) }

  /** Three branches: the second leaves the first above height 10, the third leaves the second above 13. */
  function Parent(id: BlockIdentifier): BlockIdentifier {
    if id.index == 0 then NULL_ID
    else if id == B(11) then A(10)
    else if id == C(14) then B(13)
    else BlockIdentifier(id.index - 1, if id.hash >= 4 then id.hash - 4 else 0)
  }

  function Header(id: BlockIdentifier): BlockHeader {
    BlockHeader(id, Parent(id))
  }

  lemma ParentGenealogy()
    ensures Genealogy(Parent)
  {
  }

  /** The blocks of one branch between two heights, newest first. */
  function Chain(branch: nat, low: nat, high: nat): (s: seq<BlockIdentifier>)
    requires low <= high
    ensures |s| == high - low + 1
    ensures forall i :: 0 <= i < |s| ==> s[i] == Id(branch, high - i)
  {
    seq(high - low + 1, i requires 0 <= i <= high - low => Id(branch, high - i))
  }

  // ---------------------------------------------------------------- runs

  /** The headers lead from the new pool to `p`, without a divergence. */
  ghost predicate Reaches(headers: seq<BlockHeader>, p: Pool) {
    && Genealogy(Parent) && AllWellFormed(Parent, headers) && Settled(Parent, p)
    && !Perform(Parent, EMPTY_POOL, headers).diverged && Perform(Parent, EMPTY_POOL, headers).pool == p
  }

  /** One more header at the end of a run. */
  lemma {:induction false} PerformSnoc(w: ParentOf, p: Pool, headers: seq<BlockHeader>, h: BlockHeader)
    requires Genealogy(w) && AllWellFormed(w, headers) && WellFormed(w, h) && Invariant(w, p)
    requires !Perform(w, p, headers).diverged
    ensures AllWellFormed(w, headers + [h])
    ensures var q := Perform(w, p, headers).pool;
      && Invariant(w, q)
      && Perform(w, p, headers + [h]) ==
           Run(Next(w, q, h).pool, Perform(w, p, headers).events + EventOf(Next(w, q, h)), Next(w, q, h).diverged)
    decreases |headers|
  {
    hide Process, Next, Invariant, WellFormed, Genealogy;
    if headers == [] {
      var r := Next(w, p, h);
      EventNoDivergence(p, h);
      assert [] + [h] == [h];
    } else {
      var r, all := Next(w, p, headers[0]), headers + [h];
      assert all[0] == headers[0] && all[1..] == headers[1..] + [h];
      PerformSnoc(w, r.pool, headers[1..], h);
    }
  }

  lemma Goes(headers: seq<BlockHeader>, p: Pool, h: BlockHeader)
    requires Reaches(headers, p) && WellFormed(Parent, h) && Descends(p.store[h.id := h]) && !Process(p, h).diverged
    ensures Reaches(headers + [h], Process(p, h).pool)
  {
    hide Process, Perform, Next, Settled, Descends;
    PerformSnoc(Parent, EMPTY_POOL, headers, h);
    StepSettled(Parent, p, h);
  }

  /** The pool is reached, and one more header leaves its canonical fork as it is. */
  lemma GoesQuiet(headers: seq<BlockHeader>, c: nat, forks: Forks, h: BlockHeader, next: Forks, k: nat)
    requires Reaches(headers, Tidy(Parent, c, forks)) && Leads(Parent, c, forks, h, next, k) && next[k] == forks[c]
    ensures Reaches(headers + [h], Tidy(Parent, k, next))
  {
    StaysQuiet(Parent, c, forks, h, next, k);
    hide *;
    LeadsMeans(c, forks, h, next, k);
    Goes(headers, Tidy(Parent, c, forks), h);
  }

  lemma GoesOn(headers: seq<BlockHeader>, c: nat, forks: Forks, h: BlockHeader, next: Forks, k: nat)
    requires Reaches(headers, Tidy(Parent, c, forks)) && Leads(Parent, c, forks, h, next, k)
    requires c in forks && Root(next[k]) == Root(forks[c]) && next[k] != forks[c]
    ensures Reaches(headers + [h], Tidy(Parent, k, LeftOver(next, next[k])))
  {
    Moves(Parent, c, forks, h, next, k);
    hide *;
    LeadsMeans(c, forks, h, next, k);
    Goes(headers, Tidy(Parent, c, forks), h);
  }

  lemma LeadsMeans(c: nat, forks: Forks, h: BlockHeader, next: Forks, k: nat)
    requires Leads(Parent, c, forks, h, next, k)
    ensures WellFormed(Parent, h) && k in next
  {
  }

  /** The headers of `n` blocks of one branch, oldest first. */
  function Ascending(branch: nat, low: nat, n: nat): seq<BlockHeader> {
    if n == 0 then [] else Ascending(branch, low, n - 1) + [Header(Id(branch, low + n - 1))]
  }

  lemma AscendingNext(branch: nat, low: nat, n: nat)
    requires n > 0
    ensures Ascending(branch, low, n) == Ascending(branch, low, n - 1) + [Header(Id(branch, low + n - 1))]
  {
  }

  // ----------------------------------------------------- one hash, one block

  /** The blocks a run names, as headers and as parents. */
  ghost predicate Names(headers: seq<BlockHeader>, id: BlockIdentifier) {
    exists i :: 0 <= i < |headers| && (headers[i].id == id || headers[i].parent == id)
  }

  /** No two blocks named by a run have one hash. */
  ghost predicate OwnHashes(headers: seq<BlockHeader>) {
    forall a, b :: Names(headers, a) && Names(headers, b) && a.hash == b.hash ==> a == b
  }

  /** Every block named lies on one of the three branches. */
  ghost predicate OnBranches(headers: seq<BlockHeader>) {
    forall id :: Names(headers, id) ==> 1 <= id.hash - 4 * id.index <= 3
  }

  lemma BranchesApart(headers: seq<BlockHeader>)
    requires OnBranches(headers)
    ensures OwnHashes(headers)
  {
    hide Names;
    forall a, b | Names(headers, a) && Names(headers, b) && a.hash == b.hash ensures a == b {
      assert 1 <= a.hash - 4 * a.index <= 3 && 1 <= b.hash - 4 * b.index <= 3;
    }
  }

  lemma BranchesJoin(a: seq<BlockHeader>, b: seq<BlockHeader>)
    requires OnBranches(a) && OnBranches(b)
    ensures OnBranches(a + b)
  {
    forall id | Names(a + b, id) ensures Names(a, id) || Names(b, id) {
      var i :| 0 <= i < |a + b| && ((a + b)[i].id == id || (a + b)[i].parent == id);
      assert i >= |a| ==> (a + b)[i] == b[i - |a|];
    }
  }

  lemma BranchHeader(branch: nat, height: nat)
    requires 1 <= branch <= 3 && height > 0
    ensures OnBranches([Header(Id(branch, height))])
  {
  }

  lemma {:induction false} BranchRun(branch: nat, low: nat, n: nat)
    requires 1 <= branch <= 3 && low > 0
    ensures OnBranches(Ascending(branch, low, n))
  {
    if n > 0 {
      BranchRun(branch, low, n - 1);
      BranchHeader(branch, low + n - 1);
      BranchesJoin(Ascending(branch, low, n - 1), [Header(Id(branch, low + n - 1))]);
    }
  }

  // ------------------------------------------------------------ fork shapes

  function Alone(high: nat): Forks
    requires high >= 10
  {
    map[0 := Chain(1, 10, high)]
  }

  /** The first branch up to one height, the second up to another, and the block they share. */
  function Split(n: nat, m: nat): Forks
    requires n >= 10 && m >= 11
  {
    map[0 := Chain(1, 10, n), 1 := Chain(2, 11, m) + [A(10)]]
  }

  /** The same branches without the block they shared. */
  function Cut(n: nat, m: nat): Forks
    requires n >= 11 && m >= 11
  {
    map[0 := Chain(1, 11, n), 1 := Chain(2, 11, m)]
  }

  lemma OnTop(branch: nat, low: nat, high: nat)
    requires low <= high
    ensures Chain(branch, low, high + 1) == [Id(branch, high + 1)] + Chain(branch, low, high)
  {
  }

  lemma ChainHas(branch: nat, low: nat, high: nat, id: BlockIdentifier)
    requires low <= high
    ensures id in Chain(branch, low, high) <==> low <= id.index <= high && On(id, branch)
  {
    if low <= id.index <= high && On(id, branch) {
      assert Chain(branch, low, high)[high - id.index] == id;
    }
  }

  lemma TwoBlocks(x: seq<BlockIdentifier>, y: seq<BlockIdentifier>, id: BlockIdentifier)
    ensures id in Blocks(map[0 := x, 1 := y]) <==> id in x || id in y
  {
    var forks := map[0 := x, 1 := y];
    assert 0 in forks && 1 in forks;
  }

  // ------------------------------------------------------ the first branch

  lemma First()
    ensures Reaches(Ascending(1, 10, 1), Tidy(Parent, 0, Alone(10)))
  {
    hide Process, Settled, Genealogy, Next, Descends;
    ParentGenealogy();
    var h := Header(A(10));
    FirstStep(Parent, h);
    assert Ascending(1, 10, 1) == [h];
    assert Chain(1, 10, 10) == [h.id];
    assert Blocks(Alone(10)) == {h.id} by {
      assert 0 in Alone(10) && Alone(10)[0] == [h.id] && h.id in [h.id];
    }
    assert StoreOf(Parent, {h.id}) == map[h.id := h];
    var r := Next(Parent, EMPTY_POOL, h);
    assert [h][1..] == [];
  }

  lemma AloneHas(high: nat, id: BlockIdentifier)
    requires high >= 10
    ensures id in Blocks(Alone(high)) <==> 10 <= id.index <= high && On(id, 1)
    ensures id in Alone(high)[0] <==> 10 <= id.index <= high && On(id, 1)
  {
    ChainHas(1, 10, high, id);
    assert id in Blocks(Alone(high)) <==> id in Alone(high)[0] by {
      assert 0 in Alone(high);
    }
  }

  lemma AloneLeads(high: nat)
    requires high >= 10 && Settled(Parent, Tidy(Parent, 0, Alone(high)))
    ensures Leads(Parent, 0, Alone(high), Header(Id(1, high + 1)), Alone(high + 1), 0)
  {
    hide Append, Linked, Settled, Place, Blocks;
    ParentGenealogy();
    var h, forks, next := Header(Id(1, high + 1)), Alone(high), Alone(high + 1);
    AloneHas(high, h.id);
    AloneHas(high, h.parent);
    OnTop(1, 10, high);
    assert forks[0 := [h.id] + forks[0]] == next;
    TidyForks(Parent, 0, forks);
    var p := Tidy(Parent, 0, forks);
    Extends(Parent, p.store, Base(p), forks, h, 0);
  }

  lemma AloneGrows(high: nat)
    requires 10 <= high <= 14
    ensures 0 in Alone(high) && 0 in Alone(high + 1)
    ensures Root(Alone(high)[0]) == Root(Alone(high + 1)[0]) && Alone(high)[0] != Alone(high + 1)[0]
    ensures LeftOver(Alone(high + 1), Alone(high + 1)[0]) == Alone(high + 1)
  {
  }

  /** One block more on the first branch. */
  lemma NextAlone(headers: seq<BlockHeader>, high: nat)
    requires 10 <= high <= 14 && Reaches(headers, Tidy(Parent, 0, Alone(high)))
    ensures Reaches(headers + [Header(Id(1, high + 1))], Tidy(Parent, 0, Alone(high + 1)))
  {
    hide *;
    ReachedSettled(headers, Tidy(Parent, 0, Alone(high)));
    AloneLeads(high);
    AloneGrows(high);
    GoesOn(headers, 0, Alone(high), Header(Id(1, high + 1)), Alone(high + 1), 0);
  }

  lemma {:induction false} ReachAlone(n: nat)
    requires 1 <= n <= 6
    ensures Reaches(Ascending(1, 10, n), Tidy(Parent, 0, Alone(9 + n)))
  {
    hide *;
    if n == 1 {
      First();
    } else {
      AscendingNext(1, 10, n);
      ReachAlone(n - 1);
      NextAlone(Ascending(1, 10, n - 1), 8 + n);
    }
  }

  lemma ReachedSettled(headers: seq<BlockHeader>, p: Pool)
    requires Reaches(headers, p)
    ensures Settled(Parent, p)
  {
  }

  // --------------------------------------------------- two branches, one root

  lemma SplitHas(n: nat, m: nat, id: BlockIdentifier)
    requires n >= 10 && m >= 11
    ensures id in Split(n, m)[0] <==> 10 <= id.index <= n && On(id, 1)
    ensures id in Split(n, m)[1] <==> (11 <= id.index <= m && On(id, 2)) || id == A(10)
    ensures id in Blocks(Split(n, m)) <==> (10 <= id.index <= n && On(id, 1)) || (11 <= id.index <= m && On(id, 2))
  {
    ChainHas(1, 10, n, id);
    ChainHas(2, 11, m, id);
    TwoBlocks(Chain(1, 10, n), Chain(2, 11, m) + [A(10)], id);
  }

  lemma SplitForm(n: nat)
    requires n >= 11
    ensures Alone(n).Keys == {0} && |Alone(n)[0]| == n - 9 && Alone(n)[0][n - 10] == A(10) && |Alone(n)| !in Alone(n)
    ensures WithBranch(Alone(n), [B(11)] + Alone(n)[0][n - 10..]) == Split(n, 11)
  {
    assert Alone(n)[0][n - 10..] == [A(10)];
    assert Chain(2, 11, 11) == [B(11)];
    assert |Alone(n)| == 1;
  }

  /** The second branch starts on the oldest block of the first. */
  lemma SplitStarts(n: nat, k: nat)
    requires n >= 11 && Settled(Parent, Tidy(Parent, 0, Alone(n))) && IsLongest(Split(n, 11), k)
    ensures Leads(Parent, 0, Alone(n), Header(Id(2, 11)), Split(n, 11), k)
  {
    hide Append, Linked, Settled, Place, Blocks, IsLongest, Chain, WithBranch, Alone, Split, ForksOk, Genealogy;
    ParentGenealogy();
    var h, forks := Header(B(11)), Alone(n);
    AloneHas(n, h.id);
    AloneHas(n, h.parent);
    SplitForm(n);
    TidyForks(Parent, 0, forks);
    var p := Tidy(Parent, 0, forks);
    Branches(Parent, p.store, Base(p), forks, h, 0, n - 10);
  }

  lemma SplitGrows(c: nat, n: nat, m: nat, k: nat)
    requires n >= 10 && m >= 11 && c <= 1 && Settled(Parent, Tidy(Parent, c, Split(n, m))) && IsLongest(Split(n, m + 1), k)
    ensures Leads(Parent, c, Split(n, m), Header(Id(2, m + 1)), Split(n, m + 1), k)
  {
    hide Append, Linked, Settled, Place, Genealogy, ForksOk, Blocks, IsLongest;
    ParentGenealogy();
    var h, forks := Header(B(m + 1)), Split(n, m);
    SplitHas(n, m, h.id);
    SplitHas(n, m, h.parent);
    OnTop(2, 11, m);
    Assoc([h.id], Chain(2, 11, m), [A(10)]);
    assert forks[1 := [h.id] + forks[1]] == Split(n, m + 1);
    TidyForks(Parent, c, forks);
    var p := Tidy(Parent, c, forks);
    Extends(Parent, p.store, Base(p), forks, h, 1);
  }

  lemma FirstGrows(c: nat, n: nat, m: nat)
    requires n >= 11 && m >= 11 && n >= m && c <= 1 && Settled(Parent, Tidy(Parent, c, Split(n, m)))
    ensures Leads(Parent, c, Split(n, m), Header(Id(1, n + 1)), Split(n + 1, m), 0)
  {
    hide Append, Linked, Settled, Place, Genealogy, ForksOk, Blocks;
    ParentGenealogy();
    var h, forks := Header(A(n + 1)), Split(n, m);
    SplitHas(n, m, h.id);
    SplitHas(n, m, h.parent);
    OnTop(1, 10, n);
    assert forks[0 := [h.id] + forks[0]] == Split(n + 1, m);
    TidyForks(Parent, c, forks);
    var p := Tidy(Parent, c, forks);
    Extends(Parent, p.store, Base(p), forks, h, 0);
  }

  // ----------------------------------------------- two branches, two roots

  lemma CutHas(n: nat, m: nat, id: BlockIdentifier)
    requires n >= 11 && m >= 11
    ensures id in Cut(n, m)[0] <==> 11 <= id.index <= n && On(id, 1)
    ensures id in Cut(n, m)[1] <==> 11 <= id.index <= m && On(id, 2)
    ensures id in Blocks(Cut(n, m)) <==> (11 <= id.index <= n && On(id, 1)) || (11 <= id.index <= m && On(id, 2))
  {
    ChainHas(1, 11, n, id);
    ChainHas(2, 11, m, id);
    TwoBlocks(Chain(1, 11, n), Chain(2, 11, m), id);
  }

  lemma CutGrows(c: nat, n: nat, m: nat, k: nat)
    requires n >= 11 && m >= 11 && c <= 1 && Settled(Parent, Tidy(Parent, c, Cut(n, m))) && IsLongest(Cut(n, m + 1), k)
    ensures Leads(Parent, c, Cut(n, m), Header(Id(2, m + 1)), Cut(n, m + 1), k)
  {
    hide Append, Linked, Settled, Place, Genealogy, ForksOk, Blocks, IsLongest;
    ParentGenealogy();
    var h, forks := Header(B(m + 1)), Cut(n, m);
    CutHas(n, m, h.id);
    CutHas(n, m, h.parent);
    OnTop(2, 11, m);
    assert forks[1 := [h.id] + forks[1]] == Cut(n, m + 1);
    TidyForks(Parent, c, forks);
    var p := Tidy(Parent, c, forks);
    Extends(Parent, p.store, Base(p), forks, h, 1);
  }

  /** Pruning at height 11 takes the shared block away from both branches. */
  lemma SplitPruned(n: nat, m: nat)
    requires n >= 11 && m >= 11
    ensures PruneForks(Split(n, m), 11) == Cut(n, m)
  {
    hide AtOrAbove;
    CutChain(1, 10, n, 11);
    CutChain(2, 11, m, 11);
    CutLast(Chain(2, 11, m), A(10), 11);
  }

  lemma {:induction false} CutChain(branch: nat, low: nat, high: nat, height: nat)
    requires low <= high && height <= high
    ensures AtOrAbove(Chain(branch, low, high), height) == Chain(branch, if low < height then height else low, high)
  {
    var s := Chain(branch, low, high);
    if low == high {
      assert s == [s[0]];
    } else if height == high {
      assert s[1..] == Chain(branch, low, high - 1);
      NoneAbove(s[1..], height);
    } else {
      assert s[1..] == Chain(branch, low, high - 1);
      CutChain(branch, low, high - 1, height);
      OnTop(branch, if low < height then height else low, high - 1);
    }
  }

  lemma {:induction false} NoneAbove(s: seq<BlockIdentifier>, height: nat)
    requires forall i :: 0 <= i < |s| ==> s[i].index < height
    ensures AtOrAbove(s, height) == []
  {
    if s != [] {
      NoneAbove(s[1..], height);
    }
  }

  lemma {:induction false} CutLast(s: seq<BlockIdentifier>, id: BlockIdentifier, height: nat)
    requires id.index < height
    ensures AtOrAbove(s + [id], height) == AtOrAbove(s, height)
  {
    if s == [] {
      assert [] + [id] == [id];
    } else {
      assert (s + [id])[1..] == s[1..] + [id];
      CutLast(s[1..], id, height);
    }
  }

  // ------------------------------------------------------------ divergence

  lemma SplitQuiet(m: nat)
    requires 11 <= m <= 14
    ensures IsLongest(Split(15, m), 0) && Split(15, m)[0] == Alone(15)[0]
  {
  }

  lemma NextSplit(headers: seq<BlockHeader>, m: nat)
    requires 11 <= m <= 13 && Reaches(headers, Tidy(Parent, 0, Split(15, m)))
    ensures Reaches(headers + [Header(Id(2, m + 1))], Tidy(Parent, 0, Split(15, m + 1)))
  {
    hide *;
    ReachedSettled(headers, Tidy(Parent, 0, Split(15, m)));
    SplitQuiet(m);
    SplitQuiet(m + 1);
    SplitGrows(0, 15, m, 0);
    GoesQuiet(headers, 0, Split(15, m), Header(Id(2, m + 1)), Split(15, m + 1), 0);
  }

  lemma FirstSplit(headers: seq<BlockHeader>)
    requires Reaches(headers, Tidy(Parent, 0, Alone(15)))
    ensures Reaches(headers + [Header(Id(2, 11))], Tidy(Parent, 0, Split(15, 11)))
  {
    hide *;
    ReachedSettled(headers, Tidy(Parent, 0, Alone(15)));
    SplitQuiet(11);
    SplitStarts(15, 0);
    GoesQuiet(headers, 0, Alone(15), Header(Id(2, 11)), Split(15, 11), 0);
  }

  lemma {:induction false} ReachSplit(n: nat)
    requires 1 <= n <= 4
    ensures Reaches(Ascending(1, 10, 6) + Ascending(2, 11, n), Tidy(Parent, 0, Split(15, 10 + n)))
  {
    hide *;
    AscendingNext(2, 11, n);
    if n == 1 {
      ReachAlone(6);
      FirstSplit(Ascending(1, 10, 6));
      AscendingOne(2, 11);
    } else {
      ReachSplit(n - 1);
      NextSplit(Ascending(1, 10, 6) + Ascending(2, 11, n - 1), 9 + n);
      Assoc(Ascending(1, 10, 6), Ascending(2, 11, n - 1), [Header(Id(2, 10 + n))]);
    }
  }

  lemma AscendingOne(branch: nat, low: nat)
    ensures Ascending(branch, low, 1) == [Header(Id(branch, low))]
  {
  }

  lemma CutByFirst()
    ensures IsLongest(Split(16, 14), 0) && Root(Split(16, 14)[0]) == Root(Split(15, 14)[0]) && Split(16, 14)[0] != Split(15, 14)[0]
    ensures LeftOver(Split(16, 14), Split(16, 14)[0]) == Cut(16, 14)
  {
    SplitPruned(16, 14);
  }

  /** The first branch grows to seven blocks, and the block both branches stand on is confirmed and dropped. */
  lemma ReachCut(headers: seq<BlockHeader>)
    requires Reaches(headers, Tidy(Parent, 0, Split(15, 14)))
    ensures Reaches(headers + [Header(Id(1, 16))], Tidy(Parent, 0, Cut(16, 14)))
  {
    hide *;
    ReachedSettled(headers, Tidy(Parent, 0, Split(15, 14)));
    CutByFirst();
    SplitKeys(15, 14);
    FirstGrows(0, 15, 14);
    GoesOn(headers, 0, Split(15, 14), Header(Id(1, 16)), Split(16, 14), 0);
  }

  lemma SplitKeys(n: nat, m: nat)
    requires n >= 10 && m >= 11
    ensures 0 in Split(n, m) && 1 in Split(n, m)
  {
  }

  lemma CutQuiet()
    ensures IsLongest(Cut(16, 15), 0) && Cut(16, 15)[0] == Cut(16, 14)[0]
  {
  }

  lemma ReachEven(headers: seq<BlockHeader>)
    requires Reaches(headers, Tidy(Parent, 0, Cut(16, 14)))
    ensures Reaches(headers + [Header(Id(2, 15))], Tidy(Parent, 0, Cut(16, 15)))
  {
    hide *;
    ReachedSettled(headers, Tidy(Parent, 0, Cut(16, 14)));
    CutQuiet();
    CutGrows(0, 16, 14, 0);
    GoesQuiet(headers, 0, Cut(16, 14), Header(Id(2, 15)), Cut(16, 15), 0);
  }

  /** Six blocks of one branch, four of another, one more of the first and one more of the second. */
  function UpToTie(): seq<BlockHeader> {
    Ascending(1, 10, 6) + Ascending(2, 11, 4) + [Header(Id(1, 16))] + [Header(Id(2, 15))]
  }

  lemma ReachTie()
    ensures Reaches(UpToTie(), Tidy(Parent, 0, Cut(16, 15)))
  {
    ReachSplit(4);
    hide Reaches, Tidy, Split, Cut, Ascending, Header;
    ReachCut(Ascending(1, 10, 6) + Ascending(2, 11, 4));
    ReachEven(Ascending(1, 10, 6) + Ascending(2, 11, 4) + [Header(Id(1, 16))]);
  }

  lemma TieBreaks()
    ensures IsLongest(Cut(16, 16), 1) && 0 in Cut(16, 15) && Root(Cut(16, 16)[1]) != Root(Cut(16, 15)[0])
  {
  }

  lemma EndsOff(headers: seq<BlockHeader>, p: Pool, h: BlockHeader, q: Pool)
    requires Reaches(headers, p) && WellFormed(Parent, h) && Descends(p.store[h.id := h]) && Process(p, h) == Step(q, None, true)
    ensures AllWellFormed(Parent, headers + [h])
    ensures Perform(Parent, EMPTY_POOL, headers + [h]) == Run(q, Perform(Parent, EMPTY_POOL, headers).events, true)
  {
    hide Process, Perform, Next, Settled, Descends;
    PerformSnoc(Parent, EMPTY_POOL, headers, h);
  }

  lemma GoesOff(headers: seq<BlockHeader>, c: nat, forks: Forks, h: BlockHeader, next: Forks, k: nat)
    requires Reaches(headers, Tidy(Parent, c, forks)) && Leads(Parent, c, forks, h, next, k)
    requires c in forks && Root(next[k]) != Root(forks[c])
    ensures AllWellFormed(Parent, headers + [h])
    ensures Perform(Parent, EMPTY_POOL, headers + [h]) == Run(Tidy(Parent, c, next), Perform(Parent, EMPTY_POOL, headers).events, true)
  {
    hide *;
    LeavesRoot(Parent, c, forks, h, next, k);
    LeadsMeans(c, forks, h, next, k);
    EndsOff(headers, Tidy(Parent, c, forks), h, Tidy(Parent, c, next));
  }

  /** The run up to the tie, and the header that breaks it. */
  function DivergingRun(): seq<BlockHeader> {
    UpToTie() + [Header(Id(2, 16))]
  }

  lemma DivergingHashes()
    ensures OwnHashes(DivergingRun())
  {
    hide OnBranches, OwnHashes, Ascending, Header;
    BranchRun(1, 10, 6);
    BranchRun(2, 11, 4);
    BranchHeader(1, 16);
    BranchHeader(2, 15);
    BranchHeader(2, 16);
    var run := Ascending(1, 10, 6) + Ascending(2, 11, 4);
    BranchesJoin(Ascending(1, 10, 6), Ascending(2, 11, 4));
    BranchesJoin(run, [Header(Id(1, 16))]);
    BranchesJoin(run + [Header(Id(1, 16))], [Header(Id(2, 15))]);
    BranchesJoin(UpToTie(), [Header(Id(2, 16))]);
    BranchesApart(DivergingRun());
  }

  /**
    A run of thirteen headers that ends in a divergence: the second branch is
    as long and has the greater key, but the first stays canonical and the
    follower is told nothing.
   */
  lemma RunDiverges()
    ensures IsLongest(Cut(16, 16), 1) && OwnHashes(DivergingRun())
    ensures Genealogy(Parent) && AllWellFormed(Parent, UpToTie()) && AllWellFormed(Parent, DivergingRun())
    ensures var before, run := Perform(Parent, EMPTY_POOL, UpToTie()), Perform(Parent, EMPTY_POOL, DivergingRun());
            && !before.diverged && before.pool == Tidy(Parent, 0, Cut(16, 15))
            && run.diverged && run.events == before.events && run.pool == Tidy(Parent, 0, Cut(16, 16))
  {
    DivergingHashes();
    ReachTie();
    TieBreaks();
    hide UpToTie, Process, Perform, Next, Settled, Tidy, Cut, IsLongest, Root, OwnHashes;
    CutGrows(0, 16, 15, 1);
    GoesOff(UpToTie(), 0, Cut(16, 15), Header(Id(2, 16)), Cut(16, 16), 1);
  }

  // ------------------------------------------------- a live fork overwritten

  lemma TakesOver()
    ensures IsLongest(Split(11, 11), 1) && 0 in Alone(11) && SecondForks(11) == LeftOver(Split(11, 11), Split(11, 11)[1]) == Split(11, 11)
    ensures Root(Split(11, 11)[1]) == Root(Alone(11)[0]) && Split(11, 11)[1] != Alone(11)[0]
  {
  }

  /** A sibling of the second block ties, and the greater key wins. */
  lemma ReachTaken(headers: seq<BlockHeader>)
    requires Reaches(headers, Tidy(Parent, 0, Alone(11)))
    ensures Reaches(headers + [Header(Id(2, 11))], Tidy(Parent, 1, SecondForks(11)))
  {
    hide *;
    ReachedSettled(headers, Tidy(Parent, 0, Alone(11)));
    TakesOver();
    SplitStarts(11, 1);
    GoesOn(headers, 0, Alone(11), Header(Id(2, 11)), Split(11, 11), 1);
  }

  /** The forks while the second branch grows over the shorter first one. */
  function SecondForks(m: nat): Forks
    requires 11 <= m <= 16
  {
    if m < 16 then Split(11, m) else Cut(11, 16)
  }

  lemma SecondLeads(m: nat)
    requires 11 <= m <= 15
    ensures IsLongest(Split(11, m + 1), 1) && 1 in Split(11, m)
    ensures Root(Split(11, m + 1)[1]) == Root(Split(11, m)[1]) && Split(11, m + 1)[1] != Split(11, m)[1]
    ensures LeftOver(Split(11, m + 1), Split(11, m + 1)[1]) == SecondForks(m + 1) && SecondForks(m) == Split(11, m)
  {
    hide AtOrAbove, PruneForks;
    SplitPruned(11, 16);
  }

  lemma NextTaken(headers: seq<BlockHeader>, m: nat)
    requires 11 <= m <= 15 && Reaches(headers, Tidy(Parent, 1, SecondForks(m)))
    ensures Reaches(headers + [Header(Id(2, m + 1))], Tidy(Parent, 1, SecondForks(m + 1)))
  {
    hide *;
    ReachedSettled(headers, Tidy(Parent, 1, SecondForks(m)));
    SecondLeads(m);
    SplitGrows(1, 11, m, 1);
    GoesOn(headers, 1, Split(11, m), Header(Id(2, m + 1)), Split(11, m + 1), 1);
  }

  lemma {:induction false} ReachSecond(n: nat)
    requires 1 <= n <= 6
    ensures Reaches(Ascending(1, 10, 2) + Ascending(2, 11, n), Tidy(Parent, 1, SecondForks(10 + n)))
  {
    hide *;
    AscendingNext(2, 11, n);
    if n == 1 {
      ReachAlone(2);
      ReachTaken(Ascending(1, 10, 2));
      AscendingOne(2, 11);
    } else {
      ReachSecond(n - 1);
      NextTaken(Ascending(1, 10, 2) + Ascending(2, 11, n - 1), 9 + n);
      Assoc(Ascending(1, 10, 2), Ascending(2, 11, n - 1), [Header(Id(2, 10 + n))]);
    }
  }

  /** One fork, under the key 1. */
  function Lone(): Forks {
    map[1 := Chain(2, 12, 17)]
  }

  lemma LastOfFirst()
    ensures IsLongest(Cut(11, 17), 1) && 1 in Cut(11, 16)
    ensures Root(Cut(11, 17)[1]) == Root(Cut(11, 16)[1]) && Cut(11, 17)[1] != Cut(11, 16)[1]
    ensures LeftOver(Cut(11, 17), Cut(11, 17)[1]) == Lone()
  {
    hide AtOrAbove, PruneForks;
    FirstPruned();
  }

  lemma FirstPruned()
    ensures PruneForks(Cut(11, 17), 12) == Lone()
  {
    hide AtOrAbove;
    CutChain(2, 11, 17, 12);
    NoneAbove(Chain(1, 11, 11), 12);
  }

  /** Pruning drops the first fork: only the key 1 is left. */
  lemma ReachLone(headers: seq<BlockHeader>)
    requires Reaches(headers, Tidy(Parent, 1, Cut(11, 16)))
    ensures Reaches(headers + [Header(Id(2, 17))], Tidy(Parent, 1, Lone()))
  {
    hide *;
    ReachedSettled(headers, Tidy(Parent, 1, Cut(11, 16)));
    LastOfFirst();
    CutGrows(1, 11, 16, 1);
    GoesOn(headers, 1, Cut(11, 16), Header(Id(2, 17)), Cut(11, 17), 1);
  }

  lemma AllOfSecond()
    ensures SecondForks(16) == Cut(11, 16)
  {
  }

  lemma ReachOne()
    ensures Reaches(Ascending(1, 10, 2) + Ascending(2, 11, 7), Tidy(Parent, 1, Lone()))
  {
    hide *;
    ReachSecond(6);
    AllOfSecond();
    AscendingNext(2, 11, 7);
    ReachLone(Ascending(1, 10, 2) + Ascending(2, 11, 6));
    Assoc(Ascending(1, 10, 2), Ascending(2, 11, 6), [Header(Id(2, 17))]);
  }

  /** What is left of it after a third branch leaves it above height 13. */
  function Fallen(): Forks {
    map[1 := [C(14), B(13), B(12)]]
  }

  lemma LoneRooted()
    ensures var store := Tidy(Parent, 1, Lone()).store; Rooted(Parent, store, B(12)) && ClosedAbove(Parent, store, 12)
  {
    var store := Tidy(Parent, 1, Lone()).store;
    ParentGenealogy();
    LoneHas();
    hide Genealogy;
    forall k: nat | k > 0 ensures Back(Parent, B(12), k) !in store {
      BackLower(Parent, B(12), k);
    }
  }

  lemma LoneHas()
    ensures forall id :: id in Blocks(Lone()) <==> 12 <= id.index <= 17 && On(id, 2)
  {
    assert 1 in Lone();
    forall id ensures id in Lone()[1] <==> 12 <= id.index <= 17 && On(id, 2) {
      ChainHas(2, 12, 17, id);
    }
  }

  lemma LoneShape()
    ensures var p := Tidy(Parent, 1, Lone());
      && p.canonical == 1 && p.canonical in p.forks && Canonical(p) == Chain(2, 12, 17) && p.orphans == {} && IsLongest(p.forks, p.canonical)
      && Root(Canonical(p)) == B(12) && Base(p) == 12 && |p.forks| == 1
  {
    hide StoreOf, Blocks;
  }

  lemma LoneSteady()
    ensures Steady(Parent, Tidy(Parent, 1, Lone()))
  {
    hide Settled, Rooted, ClosedAbove, Reaches, Tidy, Ascending, IsLongest, Root, Base, Chain;
    ReachOne();
    ReachedSettled(Ascending(1, 10, 2) + Ascending(2, 11, 7), Tidy(Parent, 1, Lone()));
    LoneRooted();
    LoneShape();
  }

  // The third branch leaves the only fork above its fourth block from the top.
  lemma FallenPlaced()
    ensures var p, h := Tidy(Parent, 1, Lone()), Header(C(14));
      Places(p, h) && Place(p.forks, h).value == Placement(Fallen(), 1) && Place(p.forks, h).value.updated == 1 && After(p, h) == Pool(1, {}, Fallen(), p.store[h.id := h])
  {
    hide Settled, Rooted, ClosedAbove, Reaches, Ascending, IsLongest, Root, Place, After, Genealogy, Linked, ForksOk;
    LoneSteady();
    LoneShape();
    LoneHas();
    ParentGenealogy();
    var p, h := Tidy(Parent, 1, Lone()), Header(C(14));
    TidyForks(Parent, 1, Lone());
    ChainHas(2, 12, 17, B(13));
    LoneBranch();
    Branches(Parent, p.store, Base(p), Lone(), h, 1, 4);
    CleanAfter(p, h, 1);
  }

  lemma LoneBranch()
    ensures Lone().Keys == {1} && |Lone()[1]| == 6 && Lone()[1][4] == B(13) && IsLongest(Fallen(), 1)
    ensures WithBranch(Lone(), [C(14)] + Lone()[1][4..]) == Fallen()
  {
    assert Lone()[1][4..] == [B(13), B(12)];
    assert [C(14)] + [B(13), B(12)] == [C(14), B(13), B(12)];
    assert |Lone()| == 1;
  }

  lemma FallenShape()
    ensures Linked(Parent, Fallen()[1]) && Linked(Parent, Chain(2, 12, 17))
    ensures B(13) in Chain(2, 12, 17) && B(13) in Fallen()[1] && Chain(2, 12, 17)[..4] == Chain(2, 14, 17)
    ensures Reverse(Fallen()[1][..1]) == [C(14)]
  {
    assert Chain(2, 12, 17)[4] == B(13) && Fallen()[1][1] == B(13);
    assert Fallen()[1][..1] == [C(14)];
  }

  lemma FallenDiverges()
    ensures Diverge(Fallen()[1], Chain(2, 12, 17), false) == Ok(Divergence([C(14)], Chain(2, 14, 17)))
  {
    hide Diverge, Linked, Reverse;
    ParentGenealogy();
    FallenShape();
    var mine, other := Fallen()[1], Chain(2, 12, 17);
    var i, j := DivergenceMeaning(Parent, mine, other, false);
    assert other[4] == mine[1];
    assert mine[j] == other[i] && i == 4 && j == 1;
  }

  /** Four blocks are taken back and one is added. */
  lemma FallenEvent(store: HeadersStore)
    requires forall id :: id == C(14) || (On(id, 2) && 14 <= id.index <= 17) ==> id in store && store[id].id == id
    ensures var r := GenerateEvent(Fallen()[1], Chain(2, 12, 17), store);
      r.Ok? && Ids(r.value.RolledBack()) == Chain(2, 14, 17) && Ids(r.value.Applied()) == [C(14)]
  {
    FallenDiverges();
    hide Diverge;
    assert Lookup([C(14)], store).Some?;
    assert Lookup(Chain(2, 14, 17), store).Some?;
    var r := GenerateEvent(Fallen()[1], Chain(2, 12, 17), store);
    assert r.Ok? && r.value.UpdatedWithReorg?;
    assert Ids(r.value.rollback) == Chain(2, 14, 17);
    assert Ids(r.value.apply) == [C(14)];
  }

  lemma FallenRoots()
    ensures Root(Fallen()[1]) == B(12) && Fallen()[1] != Chain(2, 12, 17) && Chain(2, 12, 17)[0] == B(17) && Fallen()[1][0] == C(14)
    ensures Header(C(14)).id == C(14) && Header(C(14)).parent == B(13) && WellFormed(Parent, Header(C(14))) && |Fallen()[1]| < 7 && B(13) != B(17)
  {
  }

  lemma FallenSpeaks()
    ensures var p, h := Tidy(Parent, 1, Lone()), Header(C(14));
      && Descends(p.store[h.id := h]) && Process(p, h).event.Some? && Displaces(p, h) && h.parent in p.store
      && Process(p, h).pool == After(p, h)
  {
    hide *;
    var p, h := Tidy(Parent, 1, Lone()), Header(C(14));
    ParentGenealogy();
    LoneSteady();
    LoneShape();
    FallenRoots();
    FallenPlaced();
    SteadyHolds(Parent, p);
    AfterFallen(p, h);
    NoEventIff(Parent, p, h);
    UpdatedCanonical(Parent, p, h);
    ParentStored();
    DisplacedWhole(Parent, p, h);
  }

  lemma AfterFallen(p: Pool, h: BlockHeader)
    requires Places(p, h) && After(p, h) == Pool(1, {}, Fallen(), p.store[h.id := h])
    ensures After(p, h).canonical in After(p, h).forks && Canonical(After(p, h)) == Fallen()[1]
    ensures h.id !in p.store && Place(p.forks, h) != None
  {
    hide After, Place;
  }

  lemma ParentStored()
    ensures Header(C(14)).parent in Tidy(Parent, 1, Lone()).store
  {
    LoneHas();
  }

  lemma SevenBlocksStored()
    ensures var store, h := Tidy(Parent, 1, Lone()).store, Header(C(14));
      forall id :: id == C(14) || (On(id, 2) && 14 <= id.index <= 17) ==> id in store[h.id := h] && store[h.id := h][id].id == id
  {
    LoneHas();
  }

  /** Two blocks of the first branch and seven of the second. */
  function UpToLone(): seq<BlockHeader> {
    Ascending(1, 10, 2) + Ascending(2, 11, 7)
  }

  /** And the block of the third branch. */
  function OverwritingRun(): seq<BlockHeader> {
    UpToLone() + [Header(C(14))]
  }

  lemma OverwritingHashes()
    ensures OwnHashes(OverwritingRun())
  {
    hide OnBranches, OwnHashes, Ascending, Header;
    BranchRun(1, 10, 2);
    BranchRun(2, 11, 7);
    BranchHeader(3, 14);
    BranchesJoin(Ascending(1, 10, 2), Ascending(2, 11, 7));
    BranchesJoin(UpToLone(), [Header(C(14))]);
    BranchesApart(OverwritingRun());
  }

  /** The header displaces the canonical fork: blocks are taken back, it alone is applied, and nothing diverges. */
  ghost predicate Overwrites(p: Pool, h: BlockHeader, gone: seq<BlockIdentifier>, left: Forks) {
    && Descends(p.store[h.id := h]) && Displaces(p, h)
    && var r := Process(p, h);
       && !r.diverged && r.event.Some? && r.pool == Pool(p.canonical, {}, left, p.store[h.id := h])
       && Ids(r.event.value.RolledBack()) == gone && Ids(r.event.value.Applied()) == [h.id]
  }

  lemma IsOverwritten(p: Pool, h: BlockHeader, event: BlockchainEvent, left: Forks)
    requires Descends(p.store[h.id := h]) && Displaces(p, h)
    requires Process(p, h) == Step(Pool(p.canonical, {}, left, p.store[h.id := h]), Some(event), false)
    requires Ids(event.Applied()) == [h.id]
    ensures Overwrites(p, h, Ids(event.RolledBack()), left)
  {
    hide Process, Descends, Displaces;
  }

  lemma LoneTip()
    ensures Lone()[1] == Chain(2, 12, 17)
  {
  }

  lemma LoneRun()
    ensures UpToLone() == Ascending(1, 10, 2) + Ascending(2, 11, 7)
  {
  }

  /**
    A run that leads to one fork of six blocks under the key 1, and a header
    that leaves it two blocks above its root: the new fork takes the key, the
    follower is told to take back four blocks for one, and the canonical tip
    falls from height 17 to height 14 without a divergence.
   */
  lemma RunOverwrites()
    ensures Lone()[1][0] == B(17) && Fallen()[1][0] == C(14)
    ensures Reaches(UpToLone(), Tidy(Parent, 1, Lone()))
    ensures Overwrites(Tidy(Parent, 1, Lone()), Header(C(14)), Chain(2, 14, 17), Fallen())
    ensures OwnHashes(OverwritingRun())
  {
    hide *;
    OverwritingHashes();
    var p, h := Tidy(Parent, 1, Lone()), Header(C(14));
    ReachOne();
    LoneRun();
    ParentGenealogy();
    LoneSteady();
    LoneShape();
    FallenRoots();
    FallenPlaced();
    FallenSpeaks();
    AfterFallen(p, h);
    SteadyHolds(Parent, p);
    EventNoDivergence(p, h);
    ProcessCases(p, h);
    AfterKeeps(Parent, p, h);
    AdvancedMeans(Parent, Base(p), After(p, h));
    Concluded(Parent, Base(p), After(p, h), p.canonical, Canonical(p));
    AtMostSix(Parent, p);
    EventAtTip(Parent, Base(p), After(p, h), Canonical(p));
    GrownWalk(Parent, p, h);
    var event := GenerateEvent(Canonical(After(p, h)), Canonical(p), After(p, h).store).value;
    PrunesOnLength(After(p, h), event);
    PruneUnfolds(After(p, h), event);
    SevenBlocksStored();
    FallenEvent(p.store[h.id := h]);
    LoneTip();
    IsOverwritten(p, h, event, Fallen());
  }
}