/**
  One competing chain, kept newest block first.  The functions describe what a
  segment does with a header; the class does it in place.
 */
module ChainSegments {
  import opened Wrappers
  import opened Sequences
  import opened BlockTypes

  datatype Incompatibility =
    | OutdatedBlock
    | OutdatedSegment
    | Collision
    | ParentBlockUnknown
    | AlreadyPresent
    | Unknown
    | BlockNotFound

  datatype Divergence = Divergence(apply: seq<BlockIdentifier>, rollback: seq<BlockIdentifier>)

  /** What becomes of a segment offered a header. */
  datatype Appended =
    | Refused
    | Extended(segment: seq<BlockIdentifier>)
    | Forked(fork: seq<BlockIdentifier>)

  // ---------------------------------------------------------------- values

  function RelativeIndex(s: seq<BlockIdentifier>, id: BlockIdentifier): nat {
    if s != [] && s[0].index >= id.index then s[0].index - id.index else 0
  }

  function CanAppend(s: seq<BlockIdentifier>, h: BlockHeader): Option<Incompatibility> {
    if s == [] then None
    else if h.id.index > s[0].index + 1 then Some(OutdatedSegment)
    else if s[0].index == h.parent.index then
      if s[0].hash == h.parent.hash then None else Some(ParentBlockUnknown)
    else if RelativeIndex(s, h.id) < |s| then
      if s[RelativeIndex(s, h.id)] == h.id then Some(AlreadyPresent) else Some(Collision)
    else Some(Unknown)
  }

  function Append(s: seq<BlockIdentifier>, h: BlockHeader): Appended {
    match CanAppend(s, h)
    case None => Extended([h.id] + s)
    case Some(Collision) =>
      if h.parent in s then Forked([h.id] + s[IndexOf(s, h.parent)..]) else Refused
    case Some(_) => Refused
  }

  /** How many blocks of `other`, newest first, come before one that `mine` has too. */
  function Overlap(other: seq<BlockIdentifier>, mine: seq<BlockIdentifier>): (i: nat)
    ensures i <= |other|
    ensures i < |other| ==> other[i] in mine
    ensures forall k :: 0 <= k < i ==> other[k] !in mine
  {
    if other == [] || other[0] in mine then 0
    else
      assert forall k :: 0 < k < |other| ==> other[k] == other[1..][k - 1];
      1 + Overlap(other[1..], mine)
  }

  function Diverge(mine: seq<BlockIdentifier>, other: seq<BlockIdentifier>, allowReset: bool)
    : Result<Divergence, Incompatibility>
  {
    var i := Overlap(other, mine);
    if i < |other| then Ok(Divergence(Reverse(mine[..IndexOf(mine, other[i])]), other[..i]))
    else if allowReset then Ok(Divergence(if other == [] then [] else Reverse(mine), other))
    else Err(Unknown)
  }

  function AtOrAbove(s: seq<BlockIdentifier>, height: nat): seq<BlockIdentifier> {
    if s == [] then []
    else (if s[0].index >= height then [s[0]] else []) + AtOrAbove(s[1..], height)
  }

  function Below(s: seq<BlockIdentifier>, height: nat): seq<BlockIdentifier> {
    if s == [] then []
    else (if s[0].index >= height then [] else [s[0]]) + Below(s[1..], height)
  }

  // --------------------------------------------------------------- objects

  class ChainSegment {
    var blockIds: seq<BlockIdentifier>

    constructor ()
      ensures blockIds == []
    {
      blockIds := [];
    }

    constructor Clone(other: ChainSegment)
      ensures blockIds == other.blockIds
    {
      blockIds := other.blockIds;
    }

    method AppendBlockIdentifier(id: BlockIdentifier)
      modifies this
      ensures blockIds == [id] + old(blockIds)
    {
      blockIds := [id] + blockIds;
    }

    method PruneConfirmedBlocks(cutOff: BlockIdentifier) returns (prune: seq<BlockIdentifier>)
      modifies this
      ensures blockIds == AtOrAbove(old(blockIds), cutOff.index)
      ensures prune == Below(old(blockIds), cutOff.index)
    {
      var keep: seq<BlockIdentifier> := [];
      prune := [];
      ghost var all := blockIds;
      while blockIds != []
        invariant AtOrAbove(all, cutOff.index) == keep + AtOrAbove(blockIds, cutOff.index)
        invariant Below(all, cutOff.index) == prune + Below(blockIds, cutOff.index)
        decreases |blockIds|
      {
        var id := blockIds[0];
        blockIds := blockIds[1..];
        if id.index >= cutOff.index {
          keep := keep + [id];
        } else {
          prune := prune + [id];
        }
      }
      for i := 0 to |keep|
        invariant blockIds == keep[..i]
      {
        blockIds := blockIds + [keep[i]];
      }
    }

    method KeepBlocksFromOldestToBlockIdentifier(id: BlockIdentifier) returns (found: bool, mutated: bool)
      modifies this
      ensures found == (id in old(blockIds))
      ensures blockIds == old(blockIds)[IndexOf(old(blockIds), id)..]
      ensures mutated == (old(blockIds) != [] && old(blockIds)[0] != id)
    {
      mutated := false;
      ghost var dropped: seq<BlockIdentifier> := [];
      while blockIds != []
        invariant old(blockIds) == dropped + blockIds
        invariant id !in dropped
        invariant mutated == (dropped != [])
        decreases |blockIds|
      {
        var tip := blockIds[0];
        if tip == id {
          found := true;
          assert old(blockIds)[|dropped|] == id;
          assert forall k :: 0 <= k < |dropped| ==> old(blockIds)[k] == dropped[k];
          return;
        }
        blockIds := blockIds[1..];
        dropped := dropped + [tip];
        mutated := true;
      }
      assert dropped == old(blockIds);
      found := false;
    }

    method TryIdentifyDivergence(other: ChainSegment, allowReset: bool)
      returns (r: Result<Divergence, Incompatibility>)
      ensures r == Diverge(blockIds, other.blockIds, allowReset)
    {
      var commonRoot: Option<BlockIdentifier> := None;
      var toRollback: seq<BlockIdentifier> := [];
      var toApply: seq<BlockIdentifier> := [];
      var i := 0;
      while i < |other.blockIds|
        invariant i <= |other.blockIds|
        invariant commonRoot == None
        invariant toRollback == other.blockIds[..i]
        invariant toApply == if i == 0 then [] else blockIds
        invariant forall k :: 0 <= k < i ==> other.blockIds[k] !in blockIds
      {
        toApply := [];
        var j := 0;
        while j < |blockIds|
          invariant j <= |blockIds|
          invariant commonRoot == None
          invariant toApply == blockIds[..j]
          invariant other.blockIds[i] !in blockIds[..j]
        {
          if blockIds[j] == other.blockIds[i] {
            commonRoot := Some(blockIds[j]);
            break;
          }
          toApply := toApply + [blockIds[j]];
          j := j + 1;
        }
        if commonRoot.Some? {
          break;
        }
        assert blockIds[..j] == blockIds;
        toRollback := toRollback + [other.blockIds[i]];
        i := i + 1;
      }
      OverlapUnique(other.blockIds, blockIds, i);
      assert i == |other.blockIds| ==> toRollback == other.blockIds;
      if commonRoot.Some? {
        IndexOfUnique(blockIds, other.blockIds[i], |toApply|);
        r := Ok(Divergence(Reverse(toApply), toRollback));
      } else if allowReset {
        r := Ok(Divergence(Reverse(toApply), toRollback));
      } else {
        r := Err(Unknown);
      }
    }

    method TryAppendBlock(h: BlockHeader) returns (appended: bool, fork: ChainSegment?)
      modifies this
      ensures fork != null ==> fresh(fork)
      ensures match Append(old(blockIds), h)
              case Refused => !appended && fork == null && blockIds == old(blockIds)
              case Extended(s) => appended && fork == null && blockIds == s
              case Forked(s) => appended && blockIds == old(blockIds) && fork != null && fork.blockIds == s
    {
      appended, fork := false, null;
      var incompatibility := CanAppend(blockIds, h);
      if incompatibility == None {
        AppendBlockIdentifier(h.id);
        appended := true;
      } else if incompatibility == Some(Collision) {
        var newFork := new ChainSegment.Clone(this);
        var parentFound, _ := newFork.KeepBlocksFromOldestToBlockIdentifier(h.parent);
        if parentFound {
          newFork.AppendBlockIdentifier(h.id);
          fork := newFork;
          appended := true;
        }
      }
    }
  }

  lemma OverlapUnique(other: seq<BlockIdentifier>, mine: seq<BlockIdentifier>, i: nat)
    requires i <= |other|
    requires i < |other| ==> other[i] in mine
    requires forall k :: 0 <= k < i ==> other[k] !in mine
    ensures Overlap(other, mine) == i
  {
  }

  lemma IndexOfUnique<T>(s: seq<T>, x: T, i: nat)
    requires i <= |s|
    requires x !in s[..i]
    requires i < |s| ==> s[i] == x
    ensures IndexOf(s, x) == i
  {
    var o := IndexOf(s, x);
    assert forall k :: 0 <= k < o ==> s[k] == s[..o][k];
    assert forall k :: 0 <= k < i ==> s[k] == s[..i][k];
  }
}
