/**
  The pool of competing chain segments, updated in place, one header at a time.
  Each method is tied to the function on values that describes it.
 */
module BlockPools {
  import opened Wrappers
  import opened Sequences
  import opened BlockTypes
  import opened ChainSegments
  import opened PoolSteps

  type Segments = map<nat, ChainSegment>

  /** No two keys share a segment object. */
  ghost predicate Separate(m: Segments) {
    forall j, k :: j in m && k in m && j != k ==> m[j] != m[k]
  }

  ghost function View(m: Segments): Forks
    reads m.Values
  {
    map k | k in m :: m[k].blockIds
  }

  lemma ViewLookup(m: Segments)
    ensures View(m).Keys == m.Keys
    ensures forall k :: k in m ==> View(m)[k] == m[k].blockIds
  {
  }

  class BlockPool {
    var canonicalForkId: nat
    var orphans: set<BlockIdentifier>
    var forks: Segments
    var headersStore: HeadersStore

    ghost predicate Valid()
      reads this
    {
      Separate(forks)
    }

    ghost function Contents(): Pool
      reads this, forks.Values
    {
      Pool(canonicalForkId, orphans, View(forks), headersStore)
    }

    constructor ()
      ensures Valid() && fresh(forks.Values)
      ensures Contents() == EMPTY_POOL
    {
      var segment := new ChainSegment();
      canonicalForkId, orphans, headersStore := 0, {}, map[];
      forks := map[0 := segment];
    }

    method CanonicalChainTip() returns (tip: Option<BlockIdentifier>)
      requires canonicalForkId in forks
      ensures tip == if Contents().forks[canonicalForkId] == [] then None
                     else Some(Contents().forks[canonicalForkId][0])
    {
      var segment := forks[canonicalForkId];
      tip := if segment.blockIds == [] then None else Some(segment.blockIds[0]);
    }

    method CanProcessHeader(h: BlockHeader) returns (yes: bool)
      ensures yes == CanProcess(Contents(), h)
    {
      yes := headersStore == map[] || h.parent in headersStore;
    }

    /** A new fork goes under the number of live forks, replacing any fork already there. */
    method InsertFork(fork: ChainSegment) returns (id: nat)
      requires Valid() && fork !in forks.Values
      modifies this`forks
      ensures Valid()
      ensures id == |old(View(forks))| && forks == old(forks)[id := fork]
      ensures View(forks) == old(View(forks))[id := fork.blockIds]
    {
      id := |forks|;
      assert View(forks).Keys == forks.Keys;
      forks := forks[id := fork];
    }

    /** Offers the header to one fork, and files the new fork it may create. */
    method OfferHeader(k: nat, h: BlockHeader) returns (updated: Option<nat>)
      requires Valid() && k in forks
      modifies this`forks, forks[k]
      ensures Valid() && fresh(forks.Values - old(forks.Values))
      ensures updated.Some? ==> updated.value in forks
      ensures match Append(old(forks[k].blockIds), h)
              case Refused => updated == None && forks == old(forks) && View(forks) == old(View(forks))
              case Extended(grown) => updated == Some(k) && View(forks) == old(View(forks))[k := grown]
              case Forked(fork) =>
                updated == Some(|old(View(forks))|) && View(forks) == old(View(forks))[|old(View(forks))| := fork]
    {
      ghost var before := View(forks);
      var appended, fork := forks[k].TryAppendBlock(h);
      updated := None;
      if appended {
        if fork != null {
          assert View(forks) == before;
          var id := InsertFork(fork);
          updated := Some(id);
        } else {
          assert View(forks) == before[k := forks[k].blockIds];
          updated := Some(k);
        }
      } else {
        assert View(forks) == before;
      }
    }

    /** Offers the header to every fork in key order until one takes it. */
    method PlaceHeader(h: BlockHeader) returns (updated: Option<nat>)
      requires Valid()
      modifies this`forks, forks.Values
      ensures Valid() && fresh(forks.Values - old(forks.Values))
      ensures updated == None ==> View(forks) == old(View(forks))
      ensures updated.Some? ==> updated.value in forks
      ensures match Place(old(View(forks)), h)
              case None => updated == None
              case Some(placed) => updated == Some(placed.updated) && View(forks) == placed.forks
    {
      ghost var before := View(forks);
      updated := None;
      var todo := forks.Keys;
      while todo != {}
        invariant todo <= forks.Keys && forks == old(forks) && View(forks) == before
        invariant updated == None
        invariant forall k :: k in forks && k !in todo ==> k !in AcceptingForks(before, h)
        decreases todo
      {
        var k := Least(todo);
        assert before[k] == forks[k].blockIds;
        updated := OfferHeader(k, h);
        if updated.Some? {
          FirstAccepting(before, h, k, todo);
          return;
        }
        todo := todo - {k};
      }
    }

    /** Passes over a snapshot of the backlog until one applies nothing. */
    method AdoptOrphans(updated: nat) returns (ghost adopted: Adoption)
      requires Valid() && updated in forks
      modifies this`orphans, forks[updated]
      ensures adopted == Adopt(Adoption(old(forks[updated].blockIds), {}), InOrder(old(orphans)), headersStore)
      ensures orphans == old(orphans) - adopted.applied
      ensures View(forks) == old(View(forks))[updated := adopted.segment]
    {
      var segment := forks[updated];
      var backlog := InOrder(orphans);
      var applied: set<BlockIdentifier> := {};
      var atLeastOneAppended := true;
      ghost var start := Adoption(segment.blockIds, {});
      while atLeastOneAppended
        invariant if atLeastOneAppended
                  then Adopt(Adoption(segment.blockIds, applied), backlog, headersStore) == Adopt(start, backlog, headersStore)
                  else Adoption(segment.blockIds, applied) == Adopt(start, backlog, headersStore)
        invariant orphans == old(orphans)
        decreases Members(backlog) - applied, atLeastOneAppended
      {
        atLeastOneAppended := false;
        ghost var pass := Adoption(segment.blockIds, applied);
        var i := 0;
        while i < |backlog|
          invariant i <= |backlog| && orphans == old(orphans)
          invariant AdoptPass(Adoption(segment.blockIds, applied), backlog[i..], headersStore)
                    == AdoptPass(pass, backlog, headersStore)
          invariant pass.applied <= applied
          invariant atLeastOneAppended <==> applied != pass.applied
        {
          var id := backlog[i];
          if id !in applied && id in headersStore {
            var appended, _ := segment.TryAppendBlock(headersStore[id]);
            if appended {
              applied := applied + {id};
              atLeastOneAppended := true;
            }
          }
          i := i + 1;
        }
        AdoptionProgress(pass, Adoption(segment.blockIds, applied), backlog, headersStore);
      }
      adopted := Adoption(segment.blockIds, applied);
      orphans := orphans - applied;
      assert View(forks) == old(View(forks))[updated := adopted.segment];
    }

    method SelectCanonicalFork() returns (best: nat)
      requires forks != map[]
      ensures View(forks) != map[] && best == Select(View(forks))
    {
      ghost var view := View(forks);
      assert view.Keys == forks.Keys;
      best := 0;
      var highest, todo := 0, forks.Keys;
      while todo != {}
        invariant todo <= forks.Keys
        invariant forall j, k :: j in forks && j !in todo && k in todo ==> j < k
        invariant forall j :: j in forks && j !in todo ==>
                    |view[j]| < highest || (|view[j]| == highest && j <= best)
        invariant todo == forks.Keys ==> highest == 0
        invariant todo != forks.Keys ==> best in forks && highest == |view[best]|
        decreases todo
      {
        var k := Least(todo);
        if |forks[k].blockIds| >= highest {
          highest := |forks[k].blockIds|;
          best := k;
        }
        todo := todo - {k};
      }
      assert IsLongest(view, best);
      SelectUnique(view, best);
    }

    /** The headers stored for a list of blocks, or none when one is missing. */
    method RetrieveHeaders(ids: seq<BlockIdentifier>) returns (r: Option<seq<BlockHeader>>)
      ensures r == Lookup(ids, headersStore)
    {
      var headers: seq<BlockHeader> := [];
      for i := 0 to |ids|
        invariant |headers| == i
        invariant forall k :: 0 <= k < i ==> ids[k] in headersStore && headers[k] == headersStore[ids[k]]
      {
        if ids[i] !in headersStore {
          return None;
        }
        headers := headers + [headersStore[ids[i]]];
      }
      assert headers == Lookup(ids, headersStore).value;
      r := Some(headers);
    }

    method GenerateBlockChainEvent(canonical: ChainSegment, other: ChainSegment)
      returns (r: Result<BlockchainEvent, Incompatibility>)
      ensures r == GenerateEvent(canonical.blockIds, other.blockIds, headersStore)
    {
      if other.blockIds == [] {
        var headers := RetrieveHeaders(Reverse(canonical.blockIds));
        return if headers == None then Err(Unknown) else Ok(UpdatedWithHeaders(headers.value, []));
      }
      var divergence := canonical.TryIdentifyDivergence(other, false);
      if divergence.Ok? {
        var apply := RetrieveHeaders(divergence.value.apply);
        if divergence.value.rollback == [] {
          return if apply == None then Err(Unknown) else Ok(UpdatedWithHeaders(apply.value, []));
        }
        var rollback := RetrieveHeaders(divergence.value.rollback);
        return if rollback == None || apply == None then Err(Unknown)
          else Ok(UpdatedWithReorg(rollback.value, apply.value, []));
      }
      r := Err(ParentBlockUnknown);
    }

    /** Retrieves the whole canonical segment present in memory, newest first. */
    method CollectAncestors(tip: BlockIdentifier) returns (segment: seq<BlockIdentifier>)
      requires Descends(headersStore)
      ensures segment == Walk(headersStore, tip)
    {
      segment := [];
      var ancestor := tip;
      while ancestor in headersStore
        invariant segment + Walk(headersStore, ancestor) == Walk(headersStore, tip)
        decreases if ancestor in headersStore then ancestor.index + 1 else 0
      {
        segment := segment + [headersStore[ancestor].id];
        ancestor := headersStore[ancestor].parent;
      }
    }

    method PruneFork(k: nat, cutOff: BlockIdentifier) returns (prune: seq<BlockIdentifier>)
      requires Valid() && k in forks
      modifies forks[k]
      ensures prune == Below(old(forks[k].blockIds), cutOff.index)
      ensures forks[k].blockIds == AtOrAbove(old(forks[k].blockIds), cutOff.index)
      ensures View(forks) == old(View(forks))[k := forks[k].blockIds]
    {
      ghost var before := View(forks);
      prune := forks[k].PruneConfirmedBlocks(cutOff);
      assert View(forks) == before[k := forks[k].blockIds];
    }

    /** Cuts every fork below a height; reports what was cut and which forks ran empty. */
    method PruneSegments(cutOff: BlockIdentifier)
      returns (blocksToPrune: seq<BlockIdentifier>, forksToPrune: set<nat>)
      requires Valid()
      modifies forks.Values
      ensures Members(blocksToPrune) == PrunedIds(old(View(forks)), cutOff.index)
      ensures View(forks) == CutForks(old(View(forks)), forks.Keys, cutOff.index)
      ensures View(forks) - forksToPrune == PruneForks(old(View(forks)), cutOff.index)
    {
      hide AtOrAbove, Below, PrunedIds, PrunedFrom, PruneForks, CutForks, Members;
      ghost var before := View(forks);
      NothingPruned(before, cutOff.index);
      blocksToPrune, forksToPrune := [], {};
      var todo := forks.Keys;
      assert forks.Keys - todo == {};
      while todo != {}
        invariant todo <= forks.Keys
        invariant View(forks) == CutForks(before, forks.Keys - todo, cutOff.index)
        invariant Members(blocksToPrune) == PrunedFrom(before, forks.Keys - todo, cutOff.index)
        invariant forksToPrune <= forks.Keys - todo
        invariant forall k :: k in forks && k !in todo ==> (k in forksToPrune <==> AtOrAbove(before[k], cutOff.index) == [])
        decreases todo
      {
        var k := Least(todo);
        OneMorePruned(before, forks.Keys - todo, k, cutOff.index);
        var res := PruneFork(k, cutOff);
        MembersAppend(blocksToPrune, res);
        blocksToPrune := blocksToPrune + res;
        if forks[k].blockIds == [] {
          forksToPrune := forksToPrune + {k};
        }
        assert forks.Keys - (todo - {k}) == forks.Keys - todo + {k};
        todo := todo - {k};
      }
      assert forks.Keys - todo == forks.Keys == before.Keys;
      AllPruned(before, forksToPrune, cutOff.index);
    }

    method PruneOrphans(cutOff: BlockIdentifier) returns (pruned: seq<BlockIdentifier>)
      modifies this`orphans
      ensures Members(pruned) == Outdated(old(orphans), cutOff.index)
      ensures orphans == old(orphans) - Members(pruned)
    {
      pruned := [];
      var backlog := InOrder(orphans);
      for i := 0 to |backlog|
        invariant forall o :: o in pruned <==> o in backlog[..i] && o.index < cutOff.index
        invariant orphans == old(orphans) - Members(pruned)
      {
        assert backlog[..i + 1] == backlog[..i] + [backlog[i]];
        if backlog[i].index < cutOff.index {
          orphans := orphans - {backlog[i]};
          pruned := pruned + [backlog[i]];
        }
      }
      assert backlog[..|backlog|] == backlog;
    }

    /** Takes stored headers out of the store, keeping them in the given order. */
    method TakeHeaders(ids: seq<BlockIdentifier>) returns (headers: seq<BlockHeader>)
      requires Distinct(ids) && forall i :: 0 <= i < |ids| ==> ids[i] in headersStore
      modifies this`headersStore
      ensures Some(headers) == Lookup(ids, old(headersStore))
      ensures headersStore == old(headersStore) - Members(ids)
    {
      headers := [];
      for i := 0 to |ids|
        invariant |headers| == i
        invariant forall k :: 0 <= k < i ==> headers[k] == old(headersStore)[ids[k]]
        invariant headersStore == old(headersStore) - Members(ids[..i])
      {
        assert ids[i] !in ids[..i];
        assert Members(ids[..i + 1]) == Members(ids[..i]) + {ids[i]} by {
          assert ids[..i + 1] == ids[..i] + [ids[i]];
        }
        headers := headers + [headersStore[ids[i]]];
        headersStore := headersStore - {ids[i]};
      }
      assert ids[..|ids|] == ids;
      assert headers == Lookup(ids, old(headersStore)).value;
    }

    method DropForks(keys: set<nat>)
      requires Valid()
      modifies this`forks
      ensures Valid() && forks.Values <= old(forks.Values)
      ensures View(forks) == old(View(forks)) - keys
    {
      forks := forks - keys;
    }

    /** Removes everything below a cut-off; hands back the confirmed headers, newest first. */
    method PruneBelow(cutOff: BlockIdentifier, confirmed: seq<BlockIdentifier>) returns (headers: seq<BlockHeader>)
      requires Valid()
      requires Distinct(confirmed) && forall i :: 0 <= i < |confirmed| ==> confirmed[i] in headersStore
      modifies this`forks, this`orphans, this`headersStore, forks.Values
      ensures Valid() && forks.Values <= old(forks.Values)
      ensures Some(headers) == Lookup(confirmed, old(headersStore))
      ensures View(forks) == PruneForks(old(View(forks)), cutOff.index)
      ensures orphans == old(orphans) - Outdated(old(orphans), cutOff.index)
      ensures headersStore == old(headersStore) - Members(confirmed)
                              - (PrunedIds(old(View(forks)), cutOff.index) + Outdated(old(orphans), cutOff.index))
    {
      hide AtOrAbove, Below, PruneForks, PrunedIds, Outdated, Lookup, CutForks, View;
      var blocksToPrune, forksToPrune := PruneSegments(cutOff);
      var outdated := PruneOrphans(cutOff);
      headers := TakeHeaders(confirmed);
      headersStore := headersStore - (Members(blocksToPrune) + Members(outdated));
      DropForks(forksToPrune);
    }

    method CollectAndPruneConfirmedBlocks(event: BlockchainEvent) returns (full: BlockchainEvent)
      requires Valid() && Descends(headersStore)
      modifies this`forks, this`orphans, this`headersStore, forks.Values
      ensures Valid() && forks.Values <= old(forks.Values)
      ensures (Contents(), full) == Prune(old(Contents()), event)
    {
      full := event;
      var applied := event.Applied();
      if applied == [] {
        return;
      }
      var segment := CollectAncestors(applied[|applied| - 1].id);
      if |segment| < CONFIRMED_SEGMENT_MINIMUM_LENGTH {
        return;
      }
      var cutOff := segment[CONFIRMED_SEGMENT_MINIMUM_LENGTH - 2];
      var confirmed := PruneBelow(cutOff, segment[6..]);
      full := event.(confirmed := Reverse(confirmed));
    }

    /** The end of a step, once a canonical fork has been selected. */
    method ConcludeHeader(previousId: nat, previous: ChainSegment) returns (event: Option<BlockchainEvent>)
      requires Valid() && Descends(headersStore) && canonicalForkId in forks && previous !in forks.Values
      modifies this, forks.Values
      ensures Valid() && forks.Values <= old(forks.Values)
      ensures Contents() == Conclude(old(Contents()), previousId, old(previous.blockIds)).pool
      ensures event == Conclude(old(Contents()), previousId, old(previous.blockIds)).event
    {
      event := None;
      var canonical := new ChainSegment.Clone(forks[canonicalForkId]);
      assert Contents().forks[canonicalForkId] == canonical.blockIds;
      if canonical.blockIds == previous.blockIds {
        return;
      }
      var res := GenerateBlockChainEvent(canonical, previous);
      if res.Ok? {
        var full := CollectAndPruneConfirmedBlocks(res.value);
        event := Some(full);
      } else if res.error == ParentBlockUnknown {
        canonicalForkId := previousId;
      }
    }

    /** Places a header and lets its fork adopt former orphans. */
    method GrowForks(h: BlockHeader) returns (placed: bool)
      requires Valid()
      modifies this`forks, this`orphans, forks.Values
      ensures Valid() && fresh(forks.Values - old(forks.Values))
      ensures placed == Place(old(View(forks)), h).Some?
      ensures placed ==> forks != map[]
      ensures !placed ==> orphans == old(orphans) && View(forks) == old(View(forks))
      ensures placed ==> (View(forks), orphans) == Grow(Place(old(View(forks)), h).value, old(orphans), headersStore)
    {
      var updated := PlaceHeader(h);
      placed := updated.Some?;
      if placed {
        assert forks[updated.value] in forks.Values;
        ghost var adopted := AdoptOrphans(updated.value);
      }
    }

    /** Grows the forks by a header and selects the canonical one. */
    method AdvanceForks(h: BlockHeader) returns (placed: bool)
      requires Valid()
      modifies this`forks, this`orphans, this`canonicalForkId, forks.Values
      ensures Valid() && fresh(forks.Values - old(forks.Values))
      ensures placed == Place(old(Contents()).forks, h).Some?
      ensures !placed ==> Contents() == old(Contents())
      ensures placed ==> canonicalForkId in forks && Contents() == Grown(old(Contents()), h)
    {
      hide Grow, Place, Select;
      placed := GrowForks(h);
      if placed {
        var best := SelectCanonicalFork();
        assert View(forks).Keys == forks.Keys;
        canonicalForkId := best;
      }
    }

    method ProcessHeader(h: BlockHeader) returns (event: Option<BlockchainEvent>)
      requires Valid() && Descends(headersStore[h.id := h])
      modifies this, forks.Values
      ensures Valid() && fresh(forks.Values - old(forks.Values))
      ensures Contents() == Process(old(Contents()), h).pool
      ensures event == Process(old(Contents()), h).event
    {
      hide Conclude, Grown, Place, View;
      ghost var start := Contents();
      ViewLookup(forks);
      event := None;
      var entryExists := h.id in headersStore;
      headersStore := headersStore[h.id := h];
      if entryExists {
        return;
      }
      var previousId := canonicalForkId;
      if previousId !in forks {
        return;
      }
      var previous := new ChainSegment.Clone(forks[previousId]);
      var placed := AdvanceForks(h);
      if !placed {
        orphans := orphans + {h.id};
        return;
      }
      event := ConcludeHeader(previousId, previous);
    }
  }

  ghost function CutForks(forks: Forks, keys: set<nat>, height: nat): Forks {
    map k | k in forks :: if k in keys then AtOrAbove(forks[k], height) else forks[k]
  }

  ghost function PrunedFrom(forks: Forks, keys: set<nat>, height: nat): set<BlockIdentifier> {
    set k, b | k in keys && k in forks && b in Below(forks[k], height) :: b
  }

  lemma NothingPruned(forks: Forks, height: nat)
    ensures PrunedFrom(forks, {}, height) == {} == Members([]) && CutForks(forks, {}, height) == forks
  {
  }

  lemma AllPruned(forks: Forks, empty: set<nat>, height: nat)
    requires empty <= forks.Keys && forall k :: k in forks ==> (k in empty <==> AtOrAbove(forks[k], height) == [])
    ensures PrunedFrom(forks, forks.Keys, height) == PrunedIds(forks, height)
    ensures CutForks(forks, forks.Keys, height) - empty == PruneForks(forks, height)
  {
    hide AtOrAbove, Below;
  }

  lemma OneMorePruned(forks: Forks, keys: set<nat>, k: nat, height: nat)
    requires k in forks && k !in keys
    ensures CutForks(forks, keys, height).Keys == forks.Keys && CutForks(forks, keys, height)[k] == forks[k]
    ensures PrunedFrom(forks, keys + {k}, height) == PrunedFrom(forks, keys, height) + Members(Below(forks[k], height))
    ensures CutForks(forks, keys + {k}, height) == CutForks(forks, keys, height)[k := AtOrAbove(forks[k], height)]
  {
    hide AtOrAbove, Below;
  }

  lemma MembersAppend(a: seq<BlockIdentifier>, b: seq<BlockIdentifier>)
    ensures Members(a + b) == Members(a) + Members(b)
  {
  }

  lemma FirstAccepting(forks: Forks, h: BlockHeader, k: nat, todo: set<nat>)
    requires k in forks && Append(forks[k], h) != Refused && IsLeast(todo, k)
    requires forall j :: j in forks && j !in todo ==> j !in AcceptingForks(forks, h)
    ensures Place(forks, h) == match Append(forks[k], h)
                               case Extended(grown) => Some(Placement(forks[k := grown], k))
                               case Forked(fork) => Some(Placement(forks[|forks| := fork], |forks|))
                               case Refused => None
  {
    assert IsLeast(AcceptingForks(forks, h), k);
  }

  lemma AdoptionProgress(before: Adoption, after: Adoption, backlog: seq<BlockIdentifier>, store: HeadersStore)
    requires after == AdoptPass(before, backlog, store)
    ensures after.applied == before.applied ==> Adopt(before, backlog, store) == after
    ensures after.applied != before.applied ==>
              && Adopt(before, backlog, store) == Adopt(after, backlog, store)
              && Members(backlog) - after.applied < Members(backlog) - before.applied
  {
    if after.applied != before.applied {
      var b :| b in after.applied && b !in before.applied;
      assert b in Members(backlog) - before.applied;
    }
  }

  lemma SelectUnique(forks: Forks, k: nat)
    requires IsLongest(forks, k)
    ensures forks != map[] && Select(forks) == k
  {
    assert k in forks;
    assert IsLongest(forks, Select(forks));
  }
}
