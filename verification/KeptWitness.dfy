/** Four arrivals after which the program stops: a fork that was canonical before comes back. */
module KeptWitness {
  import opened Wrappers
  import opened BlockTypes
  import opened ChainSegments
  import opened PoolSteps
  import opened PoolInvariants
  import opened PoolRuns
  import opened TidyPools
  import opened PoolConsumer
  import G = GivingUp
  import opened KeptBlocks
  import opened PoolWitness

  type Arriving = seq<(BlockIdentifier, nat)>

  /** The arrivals all succeed and lead to `p` with these events. */
  ghost predicate At(blocks: Arriving, p: Pool, events: seq<BlockchainEvent>) {
    && Genealogy(Parent) && (forall i :: 0 <= i < |blocks| ==> blocks[i].0 != NULL_ID)
    && Invariant(Parent, EMPTY_POOL) && Invariant(Parent, p)
    && RunLoop(Parent, EMPTY_POOL, blocks) == Advance(p, events, Done)
  }

  lemma Nothing()
    ensures At([], EMPTY_POOL, [])
  {
    ParentGenealogy();
  }

  /** One more arrival whose parent is stored and that has an event. */
  lemma Arrive(blocks: Arriving, p: Pool, events: seq<BlockchainEvent>, id: BlockIdentifier)
    requires At(blocks, p, events) && id != NULL_ID && CanProcess(p, Header(id)) && Descends(p.store[id := Header(id)])
    requires Process(p, Header(id)).event.Some? && Invariant(Parent, Process(p, Header(id)).pool)
    ensures At(blocks + [(id, 0)], Process(p, Header(id)).pool, events + [Process(p, Header(id)).event.value])
  {
    hide Process, Invariant, RunLoop, AdvancePool, Genealogy, Descends, CanProcess;
    assert Header(id) == G.Header(Parent, id);
    G.OneArrival(Parent, p, id, 0);
    G.RunLoopSnoc(Parent, EMPTY_POOL, blocks, id, 0);
  }

  /** A step between tidy pools, as an arrival whose event applies a given block. */
  lemma ArriveTidy(blocks: Arriving, events: seq<BlockchainEvent>, c: nat, forks: Forks, id: BlockIdentifier, next: Forks, k: nat,
                   b: BlockIdentifier)
    returns (event: BlockchainEvent)
    requires At(blocks, Tidy(Parent, c, forks), events) && id != NULL_ID && Leads(Parent, c, forks, Header(id), next, k)
    requires c in forks && k in next && Root(next[k]) == Root(forks[c]) && next[k] != forks[c] && LeftOver(next, next[k]) == next
    requires Parent(id) in StoreOf(Parent, Blocks(forks)) && b in next[k] && b !in forks[c]
    ensures At(blocks + [(id, 0)], Tidy(Parent, k, next), events + [event]) && b in Applied(event)
  {
    hide *;
    var p, h := Tidy(Parent, c, forks), Header(id);
    HeaderOf(id);
    Moves(Parent, c, forks, h, next, k);
    TidyAfter(Parent, c, forks, h, next, k);
    Prepared(c, forks, h, next, k);
    StepSettledInvariant(p, h);
    G.CanFollow(p, h);
    Arrive(blocks, p, events, id);
    EventApplies(Parent, p, h, b);
    event := Process(p, h).event.value;
  }

  lemma HeaderOf(id: BlockIdentifier)
    ensures Header(id).id == id && Header(id).parent == Parent(id)
  {
  }

  lemma Prepared(c: nat, forks: Forks, h: BlockHeader, next: Forks, k: nat)
    requires Leads(Parent, c, forks, h, next, k) && c in forks && k in next
    ensures Genealogy(Parent) && WellFormed(Parent, h) && Settled(Parent, Tidy(Parent, c, forks))
    ensures Canonical(Tidy(Parent, c, forks)) == forks[c] && Canonical(Tidy(Parent, k, next)) == next[k]
    ensures Tidy(Parent, c, forks).canonical in Tidy(Parent, c, forks).forks
    ensures Tidy(Parent, c, forks).store == StoreOf(Parent, Blocks(forks))
  {
    hide Settled, Genealogy, StoreOf, Blocks;
  }

  lemma StepSettledInvariant(p: Pool, h: BlockHeader)
    requires Genealogy(Parent) && WellFormed(Parent, h) && Settled(Parent, p) && Descends(p.store[h.id := h])
    requires !Process(p, h).diverged
    ensures Invariant(Parent, Process(p, h).pool)
  {
    hide Process, Settled, Genealogy, Descends;
    StepSettled(Parent, p, h);
  }

  lemma ArriveFirst() returns (events: seq<BlockchainEvent>)
    ensures At([(A(10), 0)], Tidy(Parent, 0, Alone(10)), events) && |events| == 1
  {
    var id, h := A(10), Header(A(10));
    Nothing();
    ParentGenealogy();
    assert [] + [(id, 0)] == [(id, 0)];
    assert h == G.Header(Parent, id);
    assert Chain(1, 10, 10) == [A(10)];
    assert Tidy(Parent, 0, Alone(10)) == G.Line(Parent, [id]);
    hide Process, Settled, Genealogy, Descends, At, Invariant, Tidy, Alone;
    G.FirstOfLine(Parent, id);
    FirstInvariant(h);
    Arrive([], EMPTY_POOL, [], id);
    events := [] + [Process(EMPTY_POOL, h).event.value];
  }

  lemma FirstInvariant(h: BlockHeader)
    requires Genealogy(Parent) && WellFormed(Parent, h)
    ensures Descends(EMPTY_POOL.store[h.id := h]) && Invariant(Parent, Process(EMPTY_POOL, h).pool)
  {
    hide Process, Settled, Genealogy;
    FirstStep(Parent, h);
  }

  lemma SecondStep()
    ensures 0 in Alone(10) && 0 in Alone(11) && A(11) != NULL_ID && Root(Alone(11)[0]) == Root(Alone(10)[0]) && Alone(11)[0] != Alone(10)[0]
    ensures LeftOver(Alone(11), Alone(11)[0]) == Alone(11) && A(11) in Alone(11)[0] && A(11) !in Alone(10)[0]
    ensures Parent(A(11)) in StoreOf(Parent, Blocks(Alone(10))) && A(11) == Id(1, 11)
  {
    AloneHas(10, A(11));
    AloneHas(11, A(11));
    AloneHas(10, A(10));
  }

  lemma ThirdStep()
    ensures 0 in Alone(11) && 1 in Split(11, 11) && B(11) != NULL_ID
    ensures Parent(B(11)) in StoreOf(Parent, Blocks(Alone(11))) && B(11) == Id(2, 11)
    ensures B(11) in Split(11, 11)[1] && B(11) !in Alone(11)[0]
  {
    AloneHas(11, A(10));
    AloneHas(11, B(11));
    SplitHas(11, 11, B(11));
  }

  lemma FourthStep()
    ensures 1 in Split(11, 11) && 0 in Split(12, 11) && A(12) != NULL_ID
    ensures Root(Split(12, 11)[0]) == Root(Split(11, 11)[1]) && Split(12, 11)[0] != Split(11, 11)[1]
    ensures LeftOver(Split(12, 11), Split(12, 11)[0]) == Split(12, 11)
    ensures A(11) in Split(12, 11)[0] && A(11) !in Split(11, 11)[1]
    ensures Parent(A(12)) in StoreOf(Parent, Blocks(Split(11, 11))) && A(12) == Id(1, 12)
  {
    SplitHas(12, 11, A(11));
    SplitHas(11, 11, A(11));
  }

  /** Two blocks of one branch, a sibling of the upper one that takes over, and a third block of the first branch. */
  function FourArrivals(): Arriving {
    [(A(10), 0)] + [(A(11), 0)] + [(B(11), 0)] + [(A(12), 0)]
  }

  lemma ArriveSecond() returns (events: seq<BlockchainEvent>)
    ensures At([(A(10), 0)] + [(A(11), 0)], Tidy(Parent, 0, Alone(11)), events) && |events| == 2 && A(11) in Applied(events[1])
  {
    hide *;
    events := ArriveFirst();
    ReachAlone(1);
    ReachedSettled(Ascending(1, 10, 1), Tidy(Parent, 0, Alone(10)));
    SecondStep();
    AloneLeads(10);
    var event := ArriveTidy([(A(10), 0)], events, 0, Alone(10), A(11), Alone(11), 0, A(11));
    events := events + [event];
  }

  lemma ArriveThird() returns (events: seq<BlockchainEvent>)
    ensures At([(A(10), 0)] + [(A(11), 0)] + [(B(11), 0)], Tidy(Parent, 1, Split(11, 11)), events)
    ensures |events| == 3 && A(11) in Applied(events[1])
  {
    hide *;
    events := ArriveSecond();
    ReachAlone(2);
    ReachedSettled(Ascending(1, 10, 2), Tidy(Parent, 0, Alone(11)));
    TakesOver();
    ThirdStep();
    SplitStarts(11, 1);
    var event := ArriveTidy([(A(10), 0)] + [(A(11), 0)], events, 0, Alone(11), B(11), Split(11, 11), 1, B(11));
    events := events + [event];
  }

  lemma ArriveFourth() returns (p: Pool, events: seq<BlockchainEvent>)
    ensures At(FourArrivals(), p, events) && Twice(events)
  {
    hide *;
    events := ArriveThird();
    ReachSecond(1);
    TakesOver();
    ReachedSettled(Ascending(1, 10, 2) + Ascending(2, 11, 1), Tidy(Parent, 1, Split(11, 11)));
    FourthStep();
    FirstGrows(1, 11, 11);
    var event := ArriveTidy([(A(10), 0)] + [(A(11), 0)] + [(B(11), 0)], events, 1, Split(11, 11), A(12), Split(12, 11), 0, A(11));
    p, events := Tidy(Parent, 0, Split(12, 11)), events + [event];
    RepeatedAt(events, A(11));
    FourAre();
  }

  lemma FourAre()
    ensures FourArrivals() == [(A(10), 0)] + [(A(11), 0)] + [(B(11), 0)] + [(A(12), 0)]
  {
  }

  lemma RepeatedAt(events: seq<BlockchainEvent>, b: BlockIdentifier)
    requires |events| == 4 && b in Applied(events[1]) && b in Applied(events[3])
    ensures Twice(events)
  {
  }

  /** The headers of arriving blocks. */
  function HeadersOf(blocks: Arriving): seq<BlockHeader> {
    if blocks == [] then [] else [Header(blocks[0].0)] + HeadersOf(blocks[1..])
  }

  lemma FourHashes()
    ensures OwnHashes(HeadersOf(FourArrivals()))
  {
    hide OnBranches, OwnHashes;
    BranchHeader(1, 10);
    BranchHeader(1, 11);
    BranchHeader(2, 11);
    BranchHeader(1, 12);
    BranchesJoin([Header(A(10))], [Header(A(11))]);
    BranchesJoin([Header(A(10))] + [Header(A(11))], [Header(B(11))]);
    BranchesJoin([Header(A(10))] + [Header(A(11))] + [Header(B(11))], [Header(A(12))]);
    assert HeadersOf(FourArrivals()) == [Header(A(10))] + [Header(A(11))] + [Header(B(11))] + [Header(A(12))];
    BranchesApart(HeadersOf(FourArrivals()));
  }

  /** The indexer is told to take the first branch back and then to index it again, and the program stops. */
  lemma FourArrivalsStop()
    ensures Genealogy(Parent) && Invariant(Parent, EMPTY_POOL) && forall i :: 0 <= i < 4 ==> FourArrivals()[i].0 != NULL_ID
    ensures RunLoop(Parent, EMPTY_POOL, FourArrivals()).outcome == Done
    ensures RunLoopKept(Parent, EMPTY_POOL, {}, FourArrivals()).advance.outcome == Stopped
    ensures OwnHashes(HeadersOf(FourArrivals()))
  {
    hide RunLoop, RunLoopKept, Twice, Invariant, OwnHashes, HeadersOf;
    FourHashes();
    var p, events := ArriveFourth();
    StopsIff(Parent, FourArrivals());
  }
}
