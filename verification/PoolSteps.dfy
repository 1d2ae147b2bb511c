/**
  What the block pool does with one header, as functions on values.  `Process`
  mirrors the order of the pool's own steps: store the header, place it, adopt
  former orphans, select the canonical fork, describe the change, prune.
 */
module PoolSteps {
  import opened Wrappers
  import opened Sequences
  import opened BlockTypes
  import opened ChainSegments

  const CONFIRMED_SEGMENT_MINIMUM_LENGTH := 7

  type Forks = map<nat, seq<BlockIdentifier>>
  type HeadersStore = map<BlockIdentifier, BlockHeader>

  datatype Pool = Pool(canonical: nat, orphans: set<BlockIdentifier>, forks: Forks, store: HeadersStore)

  // `diverged` marks the step that ends in the reset to the former canonical fork.
  datatype Step = Step(pool: Pool, event: Option<BlockchainEvent>, diverged: bool)

  const EMPTY_POOL := Pool(0, {}, map[0 := []], map[])

  // ------------------------------------------------------------- key order

  predicate IsLeast(s: set<nat>, k: nat) {
    k in s && forall j :: j in s ==> k <= j
  }

  lemma {:induction false} LeastExists(s: set<nat>)
    requires s != {}
    ensures exists k :: IsLeast(s, k)
  {
    var x :| x in s;
    if s == {x} {
      assert IsLeast(s, x);
    } else {
      LeastExists(s - {x});
      var k :| IsLeast(s - {x}, k);
      assert forall j :: j in s ==> j == x || j in s - {x};
      assert IsLeast(s, if x < k then x else k);
    }
  }

  function Least(s: set<nat>): (k: nat)
    requires s != {}
    ensures IsLeast(s, k)
  {
    LeastExists(s);
    var k :| IsLeast(s, k);
    k
  }

  predicate IsFirst(s: set<BlockIdentifier>, a: BlockIdentifier) {
    a in s && forall b :: b in s ==> Precedes(a, b)
  }

  lemma {:induction false} FirstExists(s: set<BlockIdentifier>)
    requires s != {}
    ensures exists a :: IsFirst(s, a)
  {
    var x :| x in s;
    if s == {x} {
      assert IsFirst(s, x);
    } else {
      FirstExists(s - {x});
      var a :| IsFirst(s - {x}, a);
      assert forall b :: b in s ==> b == x || b in s - {x};
      assert IsFirst(s, if Precedes(x, a) then x else a);
    }
  }

  function First(s: set<BlockIdentifier>): (a: BlockIdentifier)
    requires s != {}
    ensures IsFirst(s, a)
  {
    FirstExists(s);
    var a :| IsFirst(s, a);
    a
  }

  /** The orphans in the order their tree hands them out. */
  function InOrder(s: set<BlockIdentifier>): (r: seq<BlockIdentifier>)
    ensures forall b :: b in r <==> b in s
  {
    if s == {} then [] else [First(s)] + InOrder(s - {First(s)})
  }

  // ------------------------------------------------------------- placement

  datatype Placement = Placement(forks: Forks, updated: nat)

  function AcceptingForks(forks: Forks, h: BlockHeader): set<nat> {
    set k | k in forks && Append(forks[k], h) != Refused
  }

  function Place(forks: Forks, h: BlockHeader): Option<Placement> {
    var accepting := AcceptingForks(forks, h);
    if accepting == {} then None
    else
      var k := Least(accepting);
      match Append(forks[k], h)
      case Extended(grown) => Some(Placement(forks[k := grown], k))
      case Forked(fork) => Some(Placement(forks[|forks| := fork], |forks|))
  }

  // -------------------------------------------------------------- adoption

  datatype Adoption = Adoption(segment: seq<BlockIdentifier>, applied: set<BlockIdentifier>)

  /** One pass over the backlog; a block that would fork off counts as applied. */
  function AdoptPass(a: Adoption, backlog: seq<BlockIdentifier>, store: HeadersStore): (r: Adoption)
    ensures a.applied <= r.applied
    ensures forall b :: b in r.applied ==> b in a.applied || b in backlog
    decreases |backlog|
  {
    if backlog == [] then a
    else
      var id := backlog[0];
      assert forall b :: b in backlog[1..] ==> b in backlog;
      if id in a.applied || id !in store then AdoptPass(a, backlog[1..], store)
      else
        match Append(a.segment, store[id])
        case Refused => AdoptPass(a, backlog[1..], store)
        case Extended(grown) => AdoptPass(Adoption(grown, a.applied + {id}), backlog[1..], store)
        case Forked(_) => AdoptPass(a.(applied := a.applied + {id}), backlog[1..], store)
  }

  function Members(s: seq<BlockIdentifier>): set<BlockIdentifier> {
    set b | b in s
  }

  /** Passes repeat as long as one of them applied a block. */
  function Adopt(a: Adoption, backlog: seq<BlockIdentifier>, store: HeadersStore): Adoption
    decreases Members(backlog) - a.applied
  {
    var r := AdoptPass(a, backlog, store);
    if r.applied == a.applied then r
    else
      assert Members(backlog) - r.applied < Members(backlog) - a.applied by {
        var b :| b in r.applied && b !in a.applied;
        assert b in Members(backlog) - a.applied;
      }
      Adopt(r, backlog, store)
  }

  // ------------------------------------------------------------- selection

  predicate IsLongest(forks: Forks, k: nat) {
    && k in forks
    && forall j :: j in forks ==>
         |forks[j]| < |forks[k]| || (|forks[j]| == |forks[k]| && j <= k)
  }

  lemma {:induction false} LongestExists(forks: Forks)
    requires forks != map[]
    ensures exists k :: IsLongest(forks, k)
  {
    var x :| x in forks;
    var rest := forks - {x};
    if rest == map[] {
      assert forall j :: j in forks ==> j == x by {
        forall j | j in forks ensures j == x { assert j != x ==> j in rest; }
      }
      assert IsLongest(forks, x);
    } else {
      LongestExists(rest);
      var k :| IsLongest(rest, k);
      assert forall j :: j in forks ==> j == x || (j in rest && rest[j] == forks[j]);
      var best := if |rest[k]| < |forks[x]| || (|rest[k]| == |forks[x]| && k <= x) then x else k;
      assert IsLongest(forks, best);
    }
  }

  /** The longest fork; of several, the one with the greatest key. */
  function Select(forks: Forks): (k: nat)
    requires forks != map[]
    ensures IsLongest(forks, k)
  {
    LongestExists(forks);
    var k :| IsLongest(forks, k);
    k
  }

  // ---------------------------------------------------------------- events

  function Lookup(ids: seq<BlockIdentifier>, store: HeadersStore): (r: Option<seq<BlockHeader>>)
    ensures r.Some? <==> forall i :: 0 <= i < |ids| ==> ids[i] in store
    ensures r.Some? ==> |r.value| == |ids| && forall i :: 0 <= i < |ids| ==> r.value[i] == store[ids[i]]
  {
    if forall i :: 0 <= i < |ids| ==> ids[i] in store
    then Some(seq(|ids|, i requires 0 <= i < |ids| && ids[i] in store => store[ids[i]]))
    else None
  }

  function GenerateEvent(canonical: seq<BlockIdentifier>, other: seq<BlockIdentifier>, store: HeadersStore)
    : Result<BlockchainEvent, Incompatibility>
  {
    if other == [] then
      match Lookup(Reverse(canonical), store)
      case None => Err(Unknown)
      case Some(headers) => Ok(UpdatedWithHeaders(headers, []))
    else
      match Diverge(canonical, other, false)
      case Err(_) => Err(ParentBlockUnknown)
      case Ok(d) =>
        match Lookup(d.apply, store)
        case None => Err(Unknown)
        case Some(apply) =>
          if d.rollback == [] then Ok(UpdatedWithHeaders(apply, []))
          else
            match Lookup(d.rollback, store)
            case None => Err(Unknown)
            case Some(rollback) => Ok(UpdatedWithReorg(rollback, apply, []))
  }

  // --------------------------------------------------------------- pruning

  /** Headers sit under their own identifiers and stored parents are lower. */
  ghost predicate Descends(store: HeadersStore) {
    forall id :: id in store ==>
      store[id].id == id && (store[id].parent in store ==> store[id].parent.index < id.index)
  }

  /** The stored ancestors of a block, itself included, newest first. */
  ghost function Walk(store: HeadersStore, id: BlockIdentifier): (s: seq<BlockIdentifier>)
    requires Descends(store)
    ensures forall i :: 0 <= i < |s| ==> s[i] in store && s[i].index <= id.index
    ensures forall i, j :: 0 <= i < j < |s| ==> s[i].index > s[j].index
    decreases id.index, id in store
  {
    if id !in store then []
    else if store[id].parent in store then [id] + Walk(store, store[id].parent)
    else [id]
  }

  function PrunedIds(forks: Forks, height: nat): set<BlockIdentifier> {
    set k, b | k in forks && b in Below(forks[k], height) :: b
  }

  function PruneForks(forks: Forks, height: nat): Forks {
    map k | k in forks && AtOrAbove(forks[k], height) != [] :: AtOrAbove(forks[k], height)
  }

  function Outdated(orphans: set<BlockIdentifier>, height: nat): set<BlockIdentifier> {
    set o | o in orphans && o.index < height
  }

  ghost function Prune(pool: Pool, event: BlockchainEvent): (Pool, BlockchainEvent)
    requires Descends(pool.store)
  {
    var applied := event.Applied();
    if applied == [] then (pool, event)
    else
      var segment := Walk(pool.store, applied[|applied| - 1].id);
      if |segment| < CONFIRMED_SEGMENT_MINIMUM_LENGTH then (pool, event)
      else
        var height := segment[CONFIRMED_SEGMENT_MINIMUM_LENGTH - 2].index;
        var outdated := Outdated(pool.orphans, height);
        var confirmed := segment[6..];
        (Pool(pool.canonical, pool.orphans - outdated, PruneForks(pool.forks, height),
              pool.store - Members(confirmed) - (PrunedIds(pool.forks, height) + outdated)),
         event.(confirmed := Reverse(Lookup(confirmed, pool.store).value)))
  }

  // ------------------------------------------------------------- one header

  ghost function Process(pool: Pool, h: BlockHeader): Step
    requires Descends(pool.store[h.id := h])
  {
    var stored := pool.(store := pool.store[h.id := h]);
    if h.id in pool.store || pool.canonical !in pool.forks then Step(stored, None, false)
    else if Place(pool.forks, h) == None then Step(stored.(orphans := pool.orphans + {h.id}), None, false)
    else Conclude(Grown(stored, h), pool.canonical, pool.forks[pool.canonical])
  }

  /** The pool once a header has been placed and a canonical fork selected. */
  function Grown(pool: Pool, h: BlockHeader): (r: Pool)
    requires Place(pool.forks, h).Some?
    ensures r.canonical in r.forks && r.store == pool.store
  {
    var placed := Place(pool.forks, h).value;
    var (forks, orphans) := Grow(placed, pool.orphans, pool.store);
    assert placed.updated in forks;
    Pool(Select(forks), orphans, forks, pool.store)
  }

  /** The fork that took the header adopts what it can of the backlog. */
  function Grow(placed: Placement, orphans: set<BlockIdentifier>, store: HeadersStore)
    : (r: (Forks, set<BlockIdentifier>))
    requires placed.updated in placed.forks
    ensures r.0.Keys == placed.forks.Keys
  {
    var adopted := Adopt(Adoption(placed.forks[placed.updated], {}), InOrder(orphans), store);
    (placed.forks[placed.updated := adopted.segment], orphans - adopted.applied)
  }

  /** The end of a step: describe the change of canonical fork and prune. */
  ghost function Conclude(pool: Pool, previousId: nat, previous: seq<BlockIdentifier>): Step
    requires Descends(pool.store) && pool.canonical in pool.forks
  {
    if pool.forks[pool.canonical] == previous then Step(pool, None, false)
    else
      match GenerateEvent(pool.forks[pool.canonical], previous, pool.store)
      case Err(ParentBlockUnknown) => Step(pool.(canonical := previousId), None, true)
      case Err(_) => Step(pool, None, false)
      case Ok(event) => var (pruned, full) := Prune(pool, event); Step(pruned, Some(full), false)
  }

  ghost predicate CanProcess(pool: Pool, h: BlockHeader) {
    pool.store == map[] || h.parent in pool.store
  }
}
