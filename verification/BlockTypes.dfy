/** Block identifiers, headers and the events a pool hands to its follower. */
module BlockTypes {

  // A hash is an opaque number: fixed-width lower-case hexadecimal strings
  // compare like the numbers they spell.
  datatype BlockIdentifier = BlockIdentifier(index: nat, hash: nat)

  datatype BlockHeader = BlockHeader(id: BlockIdentifier, parent: BlockIdentifier)

  datatype BlockchainEvent =
    | UpdatedWithHeaders(newHeaders: seq<BlockHeader>, confirmed: seq<BlockHeader>)
    | UpdatedWithReorg(rollback: seq<BlockHeader>, apply: seq<BlockHeader>, confirmed: seq<BlockHeader>)
  {
    /** The headers a follower removes, newest first. */
    function RolledBack(): seq<BlockHeader> {
      if UpdatedWithReorg? then rollback else []
    }

    /** The headers a follower appends, oldest first. */
    function Applied(): seq<BlockHeader> {
      if UpdatedWithReorg? then apply else newHeaders
    }
  }

  /** What the genesis block names as its parent; no block carries it. */
  const NULL_ID := BlockIdentifier(0, 0)

  /** Identifiers come first in a B-tree when their height, then hash, is greater. */
  predicate Precedes(a: BlockIdentifier, b: BlockIdentifier) {
    a.index > b.index || (a.index == b.index && a.hash >= b.hash)
  }

  /** Every block names one parent, one height below it. */
  ghost predicate Genealogy(parentOf: BlockIdentifier -> BlockIdentifier) {
    forall id: BlockIdentifier ::
      if id.index == 0 then parentOf(id) == NULL_ID
      else parentOf(id).index == id.index - 1
  }

  ghost predicate WellFormed(parentOf: BlockIdentifier -> BlockIdentifier, h: BlockHeader) {
    h.id != NULL_ID && h.parent == parentOf(h.id)
  }

  function Ids(headers: seq<BlockHeader>): (ids: seq<BlockIdentifier>)
    ensures |ids| == |headers|
    ensures forall i :: 0 <= i < |ids| ==> ids[i] == headers[i].id
  {
    seq(|headers|, i requires 0 <= i < |headers| => headers[i].id)
  }
}
