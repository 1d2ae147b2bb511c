/**
  The caller of the pool: it fetches missing parents, feeds blocks to the pool
  from the lowest up, hands the events on as commands, and gives up on the
  first block that has no event.
 */
module PoolConsumer {
  import opened Wrappers
  import opened Sequences
  import opened BlockTypes
  import opened ChainSegments
  import opened SegmentProperties
  import opened PoolSteps
  import opened PoolInvariants
  import opened PoolRuns
  import opened PoolGuarantees
  import opened BlockPools

  /** What the indexer is told to take back, newest first, and then to index, oldest first. */
  datatype IndexBlocks = IndexBlocks(rollback: seq<BlockIdentifier>, apply: seq<BlockIdentifier>)

  // `Stopped` is the abort of the program on a block that is not kept.
  datatype Outcome = Done | UnableToAppend | DownloadFailed | Stopped

  datatype Advance = Advance(pool: Pool, events: seq<BlockchainEvent>, outcome: Outcome)

  function Command(event: BlockchainEvent): IndexBlocks {
    IndexBlocks(Ids(event.RolledBack()), Ids(event.Applied()))
  }

  function Commands(events: seq<BlockchainEvent>): seq<IndexBlocks> {
    if events == [] then [] else [Command(events[0])] + Commands(events[1..])
  }

  function Announced(event: BlockchainEvent, rest: Advance): Advance {
    rest.(events := [event] + rest.events)
  }

  /** A step that gives an event keeps the invariant. */
  ghost function Announce(w: ParentOf, p: Pool, id: BlockIdentifier): (r: Step)
    requires Genealogy(w) && Invariant(w, p) && id != NULL_ID
    ensures r == Next(w, p, BlockHeader(id, w(id)))
    ensures r.event.Some? ==> !r.diverged && Invariant(w, r.pool)
  {
    hide Process, Invariant;
    var r := Next(w, p, BlockHeader(id, w(id)));
    EventNoDivergence(p, BlockHeader(id, w(id)));
    r
  }

  /**
    Works off a list of blocks whose first is the lowest; `downloads` is how
    many more parents can be fetched before a download fails.
   */
  ghost function AdvancePool(w: ParentOf, p: Pool, ids: seq<BlockIdentifier>, downloads: nat): Advance
    requires Genealogy(w) && Invariant(w, p) && NULL_ID !in ids
    decreases downloads, |ids|
  {
    hide Invariant;
    if ids == [] then Advance(p, [], Done)
    else
      var h := BlockHeader(ids[0], w(ids[0]));
      if CanProcess(p, h) then
        var r := Announce(w, p, ids[0]);
        if r.event == None then Advance(r.pool, [], UnableToAppend)
        else Announced(r.event.value, AdvancePool(w, r.pool, ids[1..], downloads))
      else if downloads == 0 || h.parent == NULL_ID then Advance(p, [], DownloadFailed)
      else AdvancePool(w, p, [h.parent] + ids, downloads - 1)
  }

  // ------------------------------------------------------- the blocks kept

  datatype Taking = Taking(left: set<BlockIdentifier>, ok: bool)

  /** Takes blocks out one after another, up to the first that is not there. */
  function Take(kept: set<BlockIdentifier>, ids: seq<BlockIdentifier>): Taking {
    if ids == [] then Taking(kept, true)
    else if ids[0] in kept then Take(kept - {ids[0]}, ids[1..])
    else Taking(kept, false)
  }

  datatype Kept = Kept(advance: Advance, blocks: set<BlockIdentifier>)

  function AnnouncedKept(event: BlockchainEvent, rest: Kept): Kept {
    rest.(advance := Announced(event, rest.advance))
  }

  /**
    The same work with the blocks: each block on the list is looked up, and
    every block to apply is taken out; the program stops when one is missing.
   */
  ghost function AdvanceKept(w: ParentOf, p: Pool, kept: set<BlockIdentifier>, ids: seq<BlockIdentifier>, downloads: nat): Kept
    requires Genealogy(w) && Invariant(w, p) && NULL_ID !in ids
    decreases downloads, |ids|
  {
    hide Invariant;
    if ids == [] then Kept(Advance(p, [], Done), kept)
    else if ids[0] !in kept then Kept(Advance(p, [], Stopped), kept)
    else
      var h := BlockHeader(ids[0], w(ids[0]));
      if CanProcess(p, h) then
        var r := Announce(w, p, ids[0]);
        if r.event == None then Kept(Advance(r.pool, [], UnableToAppend), kept)
        else
          var taking := Take(kept, Ids(r.event.value.Applied()));
          if !taking.ok then Kept(Advance(r.pool, [], Stopped), taking.left)
          else AnnouncedKept(r.event.value, AdvanceKept(w, r.pool, taking.left, ids[1..], downloads))
      else if downloads == 0 || h.parent == NULL_ID then Kept(Advance(p, [], DownloadFailed), kept)
      else AdvanceKept(w, p, kept + {h.parent}, [h.parent] + ids, downloads - 1)
  }

  // ----------------------------------------------------- obeying the commands

  /**
    What the indexer does: the blocks to take back must be the newest of its
    chain, in that order; then the blocks to apply go on top, the first of them lowest.
   */
  function Obey(chain: seq<BlockIdentifier>, command: IndexBlocks): Option<seq<BlockIdentifier>> {
    if command.rollback <= chain then Some(Reverse(command.apply) + chain[|command.rollback|..]) else None
  }

  function ObeyAll(chain: seq<BlockIdentifier>, commands: seq<IndexBlocks>): Option<seq<BlockIdentifier>>
    decreases |commands|
  {
    if commands == [] then Some(chain)
    else
      match Obey(chain, commands[0])
      case None => None
      case Some(next) => ObeyAll(next, commands[1..])
  }

  /** The commands carry exactly what the events say. */
  lemma {:induction false} CommandsFollow(chain: seq<BlockIdentifier>, events: seq<BlockchainEvent>)
    ensures ObeyAll(chain, Commands(events)) == FollowAll(chain, events)
    decreases |events|
  {
    hide Reverse;
    if events != [] {
      var rest := Commands(events[1..]);
      assert ([Command(events[0])] + rest)[1..] == rest;
      if Follow(chain, events[0]).Some? {
        CommandsFollow(Follow(chain, events[0]).value, events[1..]);
      }
    }
  }

  // ---------------------------------------------------------- what it keeps

  /** The follower's chain, and what has been confirmed, agree with the pool. */
  ghost predicate Agrees(w: ParentOf, p: Pool, chain: seq<BlockIdentifier>, confirmed: seq<BlockIdentifier>) {
    Invariant(w, p) && Follows(w, p, chain) && Conserved(w, p, chain, confirmed)
  }

  lemma AnnounceAgrees(w: ParentOf, p: Pool, id: BlockIdentifier, chain: seq<BlockIdentifier>, confirmed: seq<BlockIdentifier>)
    requires Genealogy(w) && id != NULL_ID && Agrees(w, p, chain, confirmed) && CanProcess(p, BlockHeader(id, w(id)))
    ensures var r := Announce(w, p, id);
            r.event.Some? ==>
              && Follow(chain, r.event.value).Some?
              && Agrees(w, r.pool, Follow(chain, r.event.value).value, Reverse(Ids(r.event.value.confirmed)) + confirmed)
  {
    hide Process, Next, Invariant, Follows, Conserved, Follow, CanProcess, Reverse;
    var h := BlockHeader(id, w(id));
    var r := Announce(w, p, id);
    FollowAny(w, p, h, chain);
    ConserveAny(w, p, h, chain, confirmed);
    if r.event.Some? {
      FollowOne(chain, r.event.value);
      ConfirmedOne(r.event.value);
    }
  }

  lemma FollowOne(chain: seq<BlockIdentifier>, event: BlockchainEvent)
    ensures FollowAll(chain, [event]) == Follow(chain, event)
  {
    hide Follow;
  }

  lemma ConfirmedOne(event: BlockchainEvent)
    ensures ConfirmedAll([event]) == Ids(event.confirmed)
  {
    assert [event][1..] == [];
  }

  /**
    Whatever was fetched, a follower can carry out every command of an advance;
    unless it ends with a block that has no event, pool and follower agree
    again, and what was confirmed meanwhile is accounted for.
   */
  lemma {:induction false} AdvanceAgrees(w: ParentOf, p: Pool, ids: seq<BlockIdentifier>, downloads: nat,
                                         chain: seq<BlockIdentifier>, confirmed: seq<BlockIdentifier>)
    requires Genealogy(w) && NULL_ID !in ids && Agrees(w, p, chain, confirmed)
    ensures var a := AdvancePool(w, p, ids, downloads);
      && FollowAll(chain, a.events).Some?
      && (a.outcome != UnableToAppend ==>
            Agrees(w, a.pool, FollowAll(chain, a.events).value, Reverse(ConfirmedAll(a.events)) + confirmed))
    decreases downloads, |ids|
  {
    hide Process, Next, Announce, Invariant, Follows, Conserved, Follow, CanProcess, Reverse, ConfirmedAll;
    assert Invariant(w, p);
    if ids != [] {
      hide Agrees, FollowAll;
      var h := BlockHeader(ids[0], w(ids[0]));
      if CanProcess(p, h) {
        var r := Announce(w, p, ids[0]);
        AnnounceAgrees(w, p, ids[0], chain, confirmed);
        if r.event == None {
          NothingToFollow(chain);
        } else {
          var now := Reverse(Ids(r.event.value.confirmed)) + confirmed;
          AdvanceAgrees(w, r.pool, ids[1..], downloads, Follow(chain, r.event.value).value, now);
          AnnouncedFollow(chain, confirmed, r.event.value, AdvancePool(w, r.pool, ids[1..], downloads));
        }
      } else if downloads == 0 || h.parent == NULL_ID {
        NothingToFollow(chain);
        NothingConfirmed(confirmed);
      } else {
        AdvanceAgrees(w, p, [h.parent] + ids, downloads - 1, chain, confirmed);
      }
    } else {
      NothingToFollow(chain);
      NothingConfirmed(confirmed);
    }
  }

  lemma AnnouncedFollow(chain: seq<BlockIdentifier>, confirmed: seq<BlockIdentifier>, event: BlockchainEvent, rest: Advance)
    requires Follow(chain, event).Some?
    ensures FollowAll(chain, Announced(event, rest).events) == FollowAll(Follow(chain, event).value, rest.events)
    ensures Reverse(ConfirmedAll(Announced(event, rest).events)) + confirmed
         == Reverse(ConfirmedAll(rest.events)) + (Reverse(Ids(event.confirmed)) + confirmed)
  {
    hide Follow, Reverse;
    var events := [event] + rest.events;
    assert events[1..] == rest.events;
    ReverseAppend(Ids(event.confirmed), ConfirmedAll(rest.events));
    Assoc(Reverse(ConfirmedAll(rest.events)), Reverse(Ids(event.confirmed)), confirmed);
  }

  /** Up to the missing block where the program stops, the blocks make no difference. */
  lemma {:induction false} KeptSame(w: ParentOf, p: Pool, kept: set<BlockIdentifier>, ids: seq<BlockIdentifier>, downloads: nat)
    requires Genealogy(w) && Invariant(w, p) && NULL_ID !in ids
    ensures var a, k := AdvancePool(w, p, ids, downloads), AdvanceKept(w, p, kept, ids, downloads);
      && k.advance.events <= a.events
      && (k.advance.outcome != Stopped ==> k.advance == a)
    decreases downloads, |ids|
  {
    hide Invariant, Genealogy, Announce, CanProcess, Take;
    if ids != [] && ids[0] in kept {
      var h := BlockHeader(ids[0], w(ids[0]));
      if CanProcess(p, h) {
        var r := Announce(w, p, ids[0]);
        if r.event.Some? && Take(kept, Ids(r.event.value.Applied())).ok {
          KeptSame(w, r.pool, Take(kept, Ids(r.event.value.Applied())).left, ids[1..], downloads);
        }
      } else if downloads > 0 && h.parent != NULL_ID {
        KeptSame(w, p, kept + {h.parent}, [h.parent] + ids, downloads - 1);
      }
    }
  }

  lemma PrefixFollows(chain: seq<BlockIdentifier>, front: seq<BlockchainEvent>, all: seq<BlockchainEvent>)
    requires front <= all && FollowAll(chain, all).Some?
    ensures FollowAll(chain, front).Some?
  {
    hide FollowAll;
    assert front + all[|front|..] == all;
    FollowConcat(chain, front, all[|front|..]);
  }

  /** The indexer's chain is the canonical fork of the pool on top of everything confirmed. */
  ghost predicate Serves(w: ParentOf, p: Pool, chain: seq<BlockIdentifier>) {
    exists confirmed :: Agrees(w, p, chain, confirmed)
  }

  /** The indexer can obey all commands, and unless a block was given up or missing it serves the new pool. */
  ghost predicate Obeyed(w: ParentOf, chain: seq<BlockIdentifier>, commands: seq<IndexBlocks>, q: Pool, outcome: Outcome) {
    && ObeyAll(chain, commands).Some?
    && (outcome == Done || outcome == DownloadFailed ==> Serves(w, q, ObeyAll(chain, commands).value))
  }

  lemma KeptObeyed(w: ParentOf, p: Pool, kept: set<BlockIdentifier>, ids: seq<BlockIdentifier>, downloads: nat,
                   chain: seq<BlockIdentifier>)
    requires Genealogy(w) && Invariant(w, p) && NULL_ID !in ids && Serves(w, p, chain)
    ensures var a := AdvanceKept(w, p, kept, ids, downloads).advance; Obeyed(w, chain, Commands(a.events), a.pool, a.outcome)
  {
    hide AdvanceKept, AdvancePool, Invariant, Genealogy, Agrees, FollowAll, ObeyAll, Commands, ConfirmedAll, Reverse;
    var confirmed :| Agrees(w, p, chain, confirmed);
    var k := AdvanceKept(w, p, kept, ids, downloads).advance;
    KeptSame(w, p, kept, ids, downloads);
    AdvanceAgrees(w, p, ids, downloads, chain, confirmed);
    PrefixFollows(chain, k.events, AdvancePool(w, p, ids, downloads).events);
    CommandsFollow(chain, k.events);
  }

  // ------------------------------------------------------------ the method

  /** The blocks that have arrived and are not applied yet. */
  class BlockStore {
    var ids: set<BlockIdentifier>

    constructor ()
      ensures ids == {}
    {
      ids := {};
    }

    method Insert(id: BlockIdentifier)
      modifies this
      ensures ids == old(ids) + {id}
    {
      ids := ids + {id};
    }

    method TakeAll(headers: seq<BlockHeader>) returns (ok: bool)
      modifies this
      ensures Taking(ids, ok) == Take(old(ids), Ids(headers))
    {
      var i := 0;
      while i < |headers|
        invariant i <= |headers|
        invariant Take(old(ids), Ids(headers)) == Take(ids, Ids(headers)[i..])
      {
        if headers[i].id !in ids {
          return false;
        }
        assert Ids(headers)[i..][1..] == Ids(headers)[i + 1..];
        ids := ids - {headers[i].id};
        i := i + 1;
      }
      ok := true;
    }
  }

  function Before(front: seq<IndexBlocks>, rest: Kept): (seq<IndexBlocks>, Pool, set<BlockIdentifier>, Outcome) {
    (front + Commands(rest.advance.events), rest.advance.pool, rest.blocks, rest.advance.outcome)
  }

  lemma CommandsCons(event: BlockchainEvent, events: seq<BlockchainEvent>)
    ensures Commands([event] + events) == [Command(event)] + Commands(events)
  {
    assert ([event] + events)[1..] == events;
  }

  lemma OneBefore(front: seq<IndexBlocks>, event: BlockchainEvent, rest: Kept)
    ensures Before(front, AnnouncedKept(event, rest)) == Before(front + [Command(event)], rest)
  {
    hide Commands, Command;
    CommandsCons(event, rest.advance.events);
    Assoc(front, [Command(event)], Commands(rest.advance.events));
  }

  lemma AllObeyed(w: ParentOf, p: Pool, kept: set<BlockIdentifier>, ids: seq<BlockIdentifier>, downloads: nat)
    requires Genealogy(w) && Invariant(w, p) && NULL_ID !in ids
    ensures var b := Before([], AdvanceKept(w, p, kept, ids, downloads));
      forall chain :: Serves(w, p, chain) ==> Obeyed(w, chain, b.0, b.1, b.3)
  {
    hide AdvanceKept, Invariant, Genealogy, Serves, Obeyed, Commands;
    var a := AdvanceKept(w, p, kept, ids, downloads).advance;
    assert [] + Commands(a.events) == Commands(a.events);
    forall chain | Serves(w, p, chain) ensures Obeyed(w, chain, Commands(a.events), a.pool, a.outcome) {
      KeptObeyed(w, p, kept, ids, downloads, chain);
    }
  }

  /** Whether the store stays well formed when the next header is put into it. */
  lemma ReadyFor(w: ParentOf, p: Pool, id: BlockIdentifier)
    requires Genealogy(w) && Invariant(w, p) && id != NULL_ID
    ensures Descends(p.store[id := BlockHeader(id, w(id))])
  {
    hide Process;
    StepInvariant(w, p, BlockHeader(id, w(id)));
  }

  method AdvanceBlockPool(pool: BlockPool, store: BlockStore, w: ParentOf, block: BlockIdentifier, downloads: nat)
    returns (outcome: Outcome, commands: seq<IndexBlocks>)
    requires pool.Valid() && Genealogy(w) && Invariant(w, pool.Contents()) && block != NULL_ID
    modifies pool, pool.forks.Values, store
    ensures pool.Valid()
    ensures (commands, pool.Contents(), store.ids, outcome)
            == Before([], AdvanceKept(w, old(pool.Contents()), old(store.ids) + {block}, [block], downloads))
    ensures forall chain :: Serves(w, old(pool.Contents()), chain) ==> Obeyed(w, chain, commands, pool.Contents(), outcome)
  {
    hide Process, Next, Invariant, Before, View, Take, Serves, Obeyed;
    AllObeyed(w, pool.Contents(), store.ids + {block}, [block], downloads);
    ghost var whole := AdvanceKept(w, pool.Contents(), store.ids + {block}, [block], downloads);
    var blockIds := [block];
    var left := downloads;
    commands := [];
    store.Insert(block);
    while blockIds != []
      invariant pool.Valid() && fresh(pool.forks.Values - old(pool.forks.Values))
      invariant NULL_ID !in blockIds && Invariant(w, pool.Contents())
      invariant Before([], whole) == Before(commands, AdvanceKept(w, pool.Contents(), store.ids, blockIds, left))
      decreases left, |blockIds|
    {
      var id := blockIds[0];
      ghost var p, kept := pool.Contents(), store.ids;
      if id !in store.ids {
        Finished(commands, Kept(Advance(p, [], Stopped), kept));
        return Stopped, commands;
      }
      var header := BlockHeader(id, w(id));
      var yes := pool.CanProcessHeader(header);
      if yes {
        ReadyFor(w, p, id);
        ghost var r := Announce(w, p, id);
        var event := pool.ProcessHeader(header);
        if event == None {
          Finished(commands, Kept(Advance(r.pool, [], UnableToAppend), kept));
          return UnableToAppend, commands;
        }
        var ok := store.TakeAll(event.value.Applied());
        if !ok {
          Finished(commands, Kept(Advance(r.pool, [], Stopped), store.ids));
          return Stopped, commands;
        }
        OneBefore(commands, event.value, AdvanceKept(w, r.pool, store.ids, blockIds[1..], left));
        commands := commands + [Command(event.value)];
        blockIds := blockIds[1..];
      } else {
        if left == 0 || header.parent == NULL_ID {
          Finished(commands, Kept(Advance(p, [], DownloadFailed), kept));
          return DownloadFailed, commands;
        }
        left := left - 1;
        store.Insert(header.parent);
        blockIds := [header.parent] + blockIds;
      }
    }
    Finished(commands, Kept(Advance(pool.Contents(), [], Done), store.ids));
    outcome := Done;
  }

  lemma Finished(commands: seq<IndexBlocks>, k: Kept)
    requires k.advance.events == []
    ensures Before(commands, k) == (commands, k.advance.pool, k.blocks, k.advance.outcome)
  {
    assert commands + [] == commands;
  }

  // ------------------------------------------------------------ the run loop

  /** Blocks arrive one after another, each with the downloads that would work; the first failure ends the loop. */
  ghost function RunLoop(w: ParentOf, p: Pool, blocks: seq<(BlockIdentifier, nat)>): Advance
    requires Genealogy(w) && Invariant(w, p) && forall i :: 0 <= i < |blocks| ==> blocks[i].0 != NULL_ID
    decreases |blocks|
  {
    hide Invariant;
    if blocks == [] then Advance(p, [], Done)
    else
      var a := AdvancePool(w, p, [blocks[0].0], blocks[0].1);
      AdvanceInvariant(w, p, [blocks[0].0], blocks[0].1);
      if a.outcome != Done then a
      else
        var rest := RunLoop(w, a.pool, blocks[1..]);
        rest.(events := a.events + rest.events)
  }

  lemma {:induction false} AdvanceInvariant(w: ParentOf, p: Pool, ids: seq<BlockIdentifier>, downloads: nat)
    requires Genealogy(w) && Invariant(w, p) && NULL_ID !in ids
    ensures var a := AdvancePool(w, p, ids, downloads); a.outcome != UnableToAppend ==> Invariant(w, a.pool)
    decreases downloads, |ids|
  {
    hide Process, Next, Invariant, CanProcess;
    if ids != [] {
      var h := BlockHeader(ids[0], w(ids[0]));
      if CanProcess(p, h) {
        var r := Announce(w, p, ids[0]);
        if r.event.Some? { AdvanceInvariant(w, r.pool, ids[1..], downloads); }
      } else if downloads > 0 && h.parent != NULL_ID {
        AdvanceInvariant(w, p, [h.parent] + ids, downloads - 1);
      }
    }
  }

  lemma {:induction false} RunLoopAgrees(w: ParentOf, p: Pool, blocks: seq<(BlockIdentifier, nat)>,
                                         chain: seq<BlockIdentifier>, confirmed: seq<BlockIdentifier>)
    requires Genealogy(w) && (forall i :: 0 <= i < |blocks| ==> blocks[i].0 != NULL_ID) && Agrees(w, p, chain, confirmed)
    ensures var a := RunLoop(w, p, blocks);
      && FollowAll(chain, a.events).Some?
      && (a.outcome != UnableToAppend ==>
            Agrees(w, a.pool, FollowAll(chain, a.events).value, Reverse(ConfirmedAll(a.events)) + confirmed))
    decreases |blocks|
  {
    assert Invariant(w, p);
    hide AdvancePool, Agrees, FollowAll, Invariant, ConfirmedAll, Reverse;
    if blocks == [] {
      NothingToFollow(chain);
      NothingConfirmed(confirmed);
    } else {
      var a := AdvancePool(w, p, [blocks[0].0], blocks[0].1);
      AdvanceInvariant(w, p, [blocks[0].0], blocks[0].1);
      AdvanceAgrees(w, p, [blocks[0].0], blocks[0].1, chain, confirmed);
      if a.outcome == Done {
        var now := Reverse(ConfirmedAll(a.events)) + confirmed;
        RunLoopAgrees(w, a.pool, blocks[1..], FollowAll(chain, a.events).value, now);
        var rest := RunLoop(w, a.pool, blocks[1..]);
        FollowConcat(chain, a.events, rest.events);
        ConfirmedConcat(a.events, rest.events);
        ReverseAppend(ConfirmedAll(a.events), ConfirmedAll(rest.events));
        Assoc(Reverse(ConfirmedAll(rest.events)), Reverse(ConfirmedAll(a.events)), confirmed);
      }
    }
  }

  lemma NothingYet(w: ParentOf)
    ensures Agrees(w, EMPTY_POOL, [], []) && Serves(w, EMPTY_POOL, [])
  {
    var none: seq<BlockIdentifier> := [];
    assert Agrees(w, EMPTY_POOL, none, none);
  }

  /**
    From a new pool, whatever blocks arrive and whichever downloads fail: the
    indexer can carry out every command, and until a block has no event its
    chain is linked and consists of the canonical fork on top of everything
    that was confirmed.
   */
  lemma IndexerInStep(w: ParentOf, blocks: seq<(BlockIdentifier, nat)>)
    requires Genealogy(w) && forall i :: 0 <= i < |blocks| ==> blocks[i].0 != NULL_ID
    ensures var a := RunLoop(w, EMPTY_POOL, blocks);
      && ObeyAll([], Commands(a.events)).Some?
      && (a.outcome != UnableToAppend ==>
            && a.pool.canonical in a.pool.forks
            && ObeyAll([], Commands(a.events)) == Some(Canonical(a.pool) + Reverse(ConfirmedAll(a.events)))
            && Linked(w, ObeyAll([], Commands(a.events)).value))
  {
    assert Agrees(w, EMPTY_POOL, [], []) by { NothingYet(w); }
    hide RunLoop, FollowAll, ObeyAll, Commands, Linked, ConfirmedAll, Reverse;
    RunLoopAgrees(w, EMPTY_POOL, blocks, [], []);
    var a := RunLoop(w, EMPTY_POOL, blocks);
    CommandsFollow([], a.events);
    assert Reverse(ConfirmedAll(a.events)) + [] == Reverse(ConfirmedAll(a.events));
    assert Canonical(EMPTY_POOL) == [];
  }

  // ------------------------------------------------------------- single rounds

  lemma AnnounceIs(w: ParentOf, p: Pool, id: BlockIdentifier)
    requires Genealogy(w) && Invariant(w, p) && id != NULL_ID
    ensures Descends(p.store[id := BlockHeader(id, w(id))])
    ensures Announce(w, p, id) == Process(p, BlockHeader(id, w(id)))
  {
    hide Process, Invariant;
    ReadyFor(w, p, id);
  }

  lemma Fetches(w: ParentOf, p: Pool, ids: seq<BlockIdentifier>, downloads: nat)
    requires Genealogy(w) && Invariant(w, p) && NULL_ID !in ids && ids != [] && w(ids[0]) != NULL_ID && downloads > 0
    requires !CanProcess(p, BlockHeader(ids[0], w(ids[0])))
    ensures AdvancePool(w, p, ids, downloads) == AdvancePool(w, p, [w(ids[0])] + ids, downloads - 1)
  {
    hide Announce, CanProcess, Invariant, Genealogy;
  }

  lemma CannotFetch(w: ParentOf, p: Pool, ids: seq<BlockIdentifier>, downloads: nat)
    requires Genealogy(w) && Invariant(w, p) && NULL_ID !in ids && ids != [] && (w(ids[0]) == NULL_ID || downloads == 0)
    requires !CanProcess(p, BlockHeader(ids[0], w(ids[0])))
    ensures AdvancePool(w, p, ids, downloads) == Advance(p, [], DownloadFailed)
  {
    hide Announce, CanProcess, Invariant, Genealogy;
  }
}
