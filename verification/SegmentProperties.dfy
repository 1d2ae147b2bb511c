/** What chain segments do to chains: parent-linked runs of blocks. */
module SegmentProperties {
  import opened Wrappers
  import opened Sequences
  import opened BlockTypes
  import opened ChainSegments

  /** Newest first, each block's parent right behind it. */
  ghost predicate Linked(parentOf: BlockIdentifier -> BlockIdentifier, s: seq<BlockIdentifier>) {
    && (forall i :: 0 <= i < |s| ==> s[i] != NULL_ID && s[i].index == s[0].index - i)
    && (forall i {:trigger parentOf(s[i])} :: 0 <= i < |s| - 1 ==> parentOf(s[i]) == s[i + 1])
  }

  lemma LinkedTail(parentOf: BlockIdentifier -> BlockIdentifier, s: seq<BlockIdentifier>, k: nat)
    requires Linked(parentOf, s) && k <= |s|
    ensures Linked(parentOf, s[k..])
    ensures Linked(parentOf, s[..k])
  {
  }

  /**
    A segment takes a header exactly when it holds the parent and not the block
    itself; it grows at the tip when the parent is the tip, and otherwise forks
    off right above the parent.
   */
  lemma AppendMeaning(parentOf: BlockIdentifier -> BlockIdentifier, s: seq<BlockIdentifier>, h: BlockHeader)
    requires Genealogy(parentOf) && WellFormed(parentOf, h) && Linked(parentOf, s) && s != []
    ensures Append(s, h) != Refused <==> h.parent in s && h.id !in s
    ensures Append(s, h).Extended? <==> h.parent == s[0]
    ensures match Append(s, h)
            case Refused => true
            case Extended(grown) => grown == [h.id] + s && Linked(parentOf, grown)
            case Forked(fork) =>
              Linked(parentOf, fork) && fork[0] == h.id && 1 < |fork| <= |s| && fork[1..] == s[|s| - |fork| + 1..]
  {
    if h.id.index == 0 {
      assert h.parent == NULL_ID;
    }
    var at := IndexOf(s, h.parent);
    if at < |s| {
      assert h.id.index > 0;
      var rel := RelativeIndex(s, h.id);
      assert at > 0 ==> rel == at - 1;
      assert h.id in s ==> s[rel] == h.id;
    }
  }

  lemma {:induction false} CommonBelow(parentOf: BlockIdentifier -> BlockIdentifier, a: seq<BlockIdentifier>, i: nat,
                                       b: seq<BlockIdentifier>, j: nat, n: nat)
    requires Linked(parentOf, a) && Linked(parentOf, b) && i + n <= |a| && j + n <= |b|
    requires n > 0 ==> a[i] == b[j]
    ensures a[i..i + n] == b[j..j + n]
  {
    if n > 1 {
      CommonBelow(parentOf, a, i, b, j, n - 1);
      var c, d := a[i..i + n - 1], b[j..j + n - 1];
      assert a[i + n - 2] == c[n - 2] && b[j + n - 2] == d[n - 2];
      assert parentOf(a[i + n - 2]) == a[i + n - 1] && parentOf(b[j + n - 2]) == b[j + n - 1];
      assert a[i..i + n] == c + [a[i + n - 1]] && b[j..j + n] == d + [b[j + n - 1]];
    }
  }

  lemma CommonTails(parentOf: BlockIdentifier -> BlockIdentifier, mine: seq<BlockIdentifier>, j: nat,
                    other: seq<BlockIdentifier>, i: nat)
    requires Linked(parentOf, mine) && Linked(parentOf, other)
    requires i < |other| && j < |mine| && other[i] == mine[j]
    ensures mine[j..] <= other[i..] || other[i..] <= mine[j..]
    ensures mine[|mine| - 1].index == other[|other| - 1].index ==> mine[j..] == other[i..]
  {
    var n := if |mine| - j <= |other| - i then |mine| - j else |other| - i;
    CommonBelow(parentOf, mine, j, other, i, n);
    assert mine[j..j + n] == mine[j..][..n] && other[i..i + n] == other[i..][..n];
    assert mine[j..][..|mine| - j] == mine[j..] && other[i..][..|other| - i] == other[i..];
  }

  lemma PrivateAbove(parentOf: BlockIdentifier -> BlockIdentifier, mine: seq<BlockIdentifier>, j: nat,
                     other: seq<BlockIdentifier>, i: nat)
    requires Linked(parentOf, mine) && Linked(parentOf, other)
    requires i < |other| && j < |mine| && other[i] == mine[j]
    requires forall k :: 0 <= k < i ==> other[k] !in mine
    ensures forall k :: 0 <= k < j ==> mine[k] !in other
  {
    forall k, m | 0 <= k < j && 0 <= m < |other| ensures mine[k] != other[m] {
      if m < i {
        assert other[m] !in mine;
      } else {
        assert mine[k].index > mine[j].index == other[i].index >= other[m].index;
      }
    }
  }

  /**
    For two chains that share a block, the nested search finds the highest
    shared one: everything above it is private to one chain, everything below
    it is common, and the two lists say what to remove and what to add.
   */
  lemma DivergenceMeaning(parentOf: BlockIdentifier -> BlockIdentifier, mine: seq<BlockIdentifier>,
                          other: seq<BlockIdentifier>, allowReset: bool)
    returns (i: nat, j: nat)
    requires Linked(parentOf, mine) && Linked(parentOf, other)
    requires exists b :: b in other && b in mine
    ensures i < |other| && j < |mine| && other[i] == mine[j]
    ensures Diverge(mine, other, allowReset) == Ok(Divergence(Reverse(mine[..j]), other[..i]))
    ensures forall k :: 0 <= k < i ==> other[k] !in mine
    ensures forall k :: 0 <= k < j ==> mine[k] !in other
    ensures mine[j..] <= other[i..] || other[i..] <= mine[j..]
    ensures mine[|mine| - 1].index == other[|other| - 1].index ==> mine[j..] == other[i..]
  {
    i := Overlap(other, mine);
    j := IndexOf(mine, other[i]);
    PrivateAbove(parentOf, mine, j, other, i);
    CommonTails(parentOf, mine, j, other, i);
  }

  /** For chains that reach equally deep, the two lists are the two set differences. */
  lemma DivergenceLists(parentOf: BlockIdentifier -> BlockIdentifier, mine: seq<BlockIdentifier>,
                        other: seq<BlockIdentifier>, d: Divergence, b: BlockIdentifier)
    requires Linked(parentOf, mine) && Linked(parentOf, other)
    requires Diverge(mine, other, false) == Ok(d)
    requires mine != [] && mine[|mine| - 1].index == other[|other| - 1].index
    ensures b in d.apply <==> b in mine && b !in other
    ensures b in d.rollback <==> b in other && b !in mine
  {
    assert other[Overlap(other, mine)] in other;
    var i, j := DivergenceMeaning(parentOf, mine, other, false);
    ReverseMembers(mine[..j], b);
    SplitMembers(mine, j, b);
    SplitMembers(other, i, b);
    assert forall k :: 0 <= k < j ==> mine[..j][k] !in other;
    assert forall k :: 0 <= k < i ==> other[..i][k] !in mine;
  }

  lemma SplitMembers(s: seq<BlockIdentifier>, k: nat, b: BlockIdentifier)
    requires k <= |s|
    ensures b in s <==> b in s[..k] || b in s[k..]
  {
    assert s == s[..k] + s[k..];
  }

  /** Pruning by height cuts a chain in two. */
  lemma {:induction false} PruneMeaning(parentOf: BlockIdentifier -> BlockIdentifier, s: seq<BlockIdentifier>, height: nat)
    requires Linked(parentOf, s)
    ensures AtOrAbove(s, height) == s[..Kept(s, height)]
    ensures Below(s, height) == s[Kept(s, height)..]
  {
    if s != [] {
      LinkedTail(parentOf, s, 1);
      PruneMeaning(parentOf, s[1..], height);
      assert s == [s[0]] + s[1..];
    }
  }

  /** How many blocks of a chain lie at or above a height. */
  function Kept(s: seq<BlockIdentifier>, height: nat): (k: nat)
    ensures k <= |s|
  {
    if s == [] || s[0].index < height then 0
    else if s[0].index - height + 1 <= |s| then s[0].index - height + 1 else |s|
  }
}
