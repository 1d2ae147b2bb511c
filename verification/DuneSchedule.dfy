/** When which dunes may be etched: a minimum that falls with the height, and the height at which a dune unlocks. */
module DuneSchedule {
  import opened Wrappers
  import opened Bytes
  import opened Dunes

  datatype Network = Bitcoin | Regtest | Signet | Testnet | Other

  const UNLOCKED: nat := 12

  /** The table of bounds, one entry at a time. */
  function StepAt(i: nat): nat
    requires i <= 27
  {
    STEPS[i]
  }

  /** The schedule for one number of blocks between halvings, whose heights fit 32 bits. */
  datatype Schedule = Schedule(halving: nat)
  {
    predicate Valid() {
      halving > 0 && 13 * halving < U32
    }

    /** Blocks between two lengths of names; at least one. */
    function Interval(): (u: nat)
      ensures u > 0
    {
      if halving >= 12 then halving / 12 else 1
    }

    function FirstHeight(network: Network): nat {
      halving * match network case Bitcoin => 4 case Testnet => 12 case _ => 0
    }

    /** The name length that is free after some progress; running out of lengths stops the program. */
    predicate HasLength(progress: nat) {
      progress / Interval() < UNLOCKED
    }

    function Slope(length: nat, remainder: nat): (m: nat)
      requires 0 < length <= UNLOCKED && remainder < Interval()
      ensures StepAt(length - 1) < m <= StepAt(length)
    {
      hide StepAt, Interval;
      Between(length, remainder, Interval());
      StepAt(length) - (StepAt(length) - StepAt(length - 1)) * remainder / Interval()
    }

    function MinimumAtHeight(network: Network, height: nat): Option<nat>
      requires height < U32
    {
      hide StepAt, Interval, During;
      var offset := if height + 1 < U32 then height + 1 else height;
      var start := FirstHeight(network);
      if offset < start then Some(StepAt(UNLOCKED))
      else if offset >= start + halving then Some(0)
      else During(offset - start)
    }

    /** The minimum after some progress into the schedule. */
    function During(progress: nat): Option<nat> {
      hide StepAt, Interval, Slope;
      if !HasLength(progress) then None
      else Some(Slope(UNLOCKED - progress / Interval(), progress % Interval()))
    }

    function UnlockHeight(network: Network, dune: nat): Option<nat> {
      hide StepAt, Interval, FirstHeight, StepAbove, Product, Delay;
      if dune >= RESERVED then None
      else if dune >= StepAt(UNLOCKED) then Some(0)
      else Some(FirstHeight(network) + Product(UNLOCKED - StepAbove(dune), Interval()) + Delay(dune, Interval()))
    }
  }

  function Product(a: nat, b: nat): nat {
    a * b
  }

  lemma StepsGrow(i: nat, j: nat)
    requires i < j <= 27
    ensures StepAt(i) < StepAt(j)
  {
    hide Step;
    StepsTable(i);
    StepsTable(j);
    StepGrows(i, j);
  }

  lemma Between(length: nat, remainder: nat, u: nat)
    requires 0 < length <= UNLOCKED && remainder < u
    ensures StepAt(length - 1) < StepAt(length) - (StepAt(length) - StepAt(length - 1)) * remainder / u <= StepAt(length)
  {
    hide StepAt;
    StepsGrow(length - 1, length);
    Fraction(StepAt(length) - StepAt(length - 1), remainder, u);
  }

  lemma Fraction(d: nat, r: nat, u: nat)
    requires 0 < d && r < u
    ensures 0 <= d * r / u < d
  {
    Scaled(d, r, u);
    DivideBelow(d * r, d, u);
  }

  lemma Scaled(d: nat, r: nat, u: nat)
    requires 0 < d && r < u
    ensures 0 <= d * r < d * u
  {
    assert d * u == d * r + d * (u - r);
  }

  /** The position of the first step above a dune. */
  function StepAbove(dune: nat): (i: nat)
    requires dune < StepAt(UNLOCKED)
    ensures 0 < i <= UNLOCKED && StepAt(i - 1) <= dune < StepAt(i)
  {
    StepFrom(dune, 1)
  }

  function StepFrom(dune: nat, i: nat): (j: nat)
    requires 0 < i <= UNLOCKED && StepAt(i - 1) <= dune < StepAt(UNLOCKED)
    ensures i <= j <= UNLOCKED && StepAt(j - 1) <= dune < StepAt(j)
    decreases UNLOCKED - i
  {
    hide StepAt;
    if dune < StepAt(i) then i else StepFrom(dune, i + 1)
  }

  // ------------------------------------------------------------- arithmetic

  lemma DivideBelow(a: int, b: int, u: nat)
    requires u > 0
    ensures a < b * u ==> a / u < b
    ensures a >= b * u ==> a / u >= b
  {
    assert a == u * (a / u) + a % u;
    if a < b * u && a / u >= b {
      Times(b, a / u, u);
    }
    if a >= b * u && a / u < b {
      Times(a / u + 1, b, u);
    }
  }

  lemma Times(x: int, y: int, u: nat)
    requires x <= y
    ensures x * u <= y * u && u * x == x * u && u * y == y * u
  {
  }

  /** The slope passes a dune exactly when the remainder passes the height computed for it. */
  lemma SlopeIff(p: nat, d: nat, r: nat, u: nat)
    requires 0 < p <= d && r < u
    ensures p <= d * r / u <==> r > (p * u - 1) / d
    ensures 0 <= (p * u - 1) / d < u
  {
    assert p * u >= 1 && p * u <= d * u by { Times(p, d, u); Times(1, p, u); }
    DivideBelow(d * r, p, u);
    assert u * d == d * u;
    DivideBelow(p * u - 1, u, d);
    DivideBelow(p * u - 1, 0, d);
    DivideBelow(p * u - 1, r, d);
    assert r * d == d * r;
  }

  // ------------------------------------------------------------- adjunction

  lemma SlopeAgrees(s: Schedule, dune: nat, length: nat, remainder: nat)
    requires dune < StepAt(UNLOCKED) && 0 < length <= UNLOCKED && remainder < s.Interval()
    ensures var i := StepAbove(dune);
            dune >= s.Slope(length, remainder) <==>
              length < i || (length == i && remainder > ((StepAt(i) - dune) * s.Interval() - 1) / (StepAt(i) - StepAt(i - 1)))
  {
    hide StepAt, StepAbove;
    var i := StepAbove(dune);
    if length > i {
      if i < length - 1 { StepsGrow(i, length - 1); }
    } else if length < i {
      if length < i - 1 { StepsGrow(length, i - 1); }
    } else {
      SlopeIff(StepAt(i) - dune, StepAt(i) - StepAt(i - 1), remainder, s.Interval());
    }
  }

  /** Comparing heights is comparing lengths first and remainders second. */
  lemma HeightsAgree(u: nat, t: nat, i: nat, q: nat)
    requires u > 0 && 0 < i <= UNLOCKED && q < u
    ensures t - 1 >= (UNLOCKED - i) * u + q <==>
            UNLOCKED - t / u < i || (UNLOCKED - t / u == i && t % u > q)
  {
    PartsAgree(u, t / u, t % u, UNLOCKED - i, q);
  }

  lemma PartsAgree(u: nat, j: nat, r: nat, k: nat, q: nat)
    requires r < u && q < u
    ensures u * j + r - 1 >= k * u + q <==> j > k || (j == k && r > q)
  {
    if j < k {
      Times(j + 1, k, u);
    } else if j > k {
      Times(k + 1, j, u);
    } else {
      Times(k, j, u);
    }
  }

  lemma WholeInterval(s: Schedule)
    requires s.halving > 0 && s.halving % 12 == 0
    ensures s.halving == 12 * s.Interval()
  {
  }

  lemma LengthsLast(u: nat, t: nat)
    requires u > 0 && t < 12 * u
    ensures t / u < 12
  {
    DivideBelow(t, 12, u);
  }

  function Share(p: nat, d: nat, u: nat): (q: nat)
    requires 0 < p <= d && u > 0
    ensures q < u
  {
    SlopeIff(p, d, 0, u);
    (p * u - 1) / d
  }

  /** How many blocks after the start of its length a dune unlocks. */
  function Delay(dune: nat, u: nat): (q: nat)
    requires dune < StepAt(UNLOCKED) && u > 0
    ensures q < u
  {
    hide StepAt, StepAbove, Share;
    var i := StepAbove(dune);
    Share(StepAt(i) - dune, StepAt(i) - StepAt(i - 1), u)
  }

  lemma DuringIff(s: Schedule, dune: nat, t: nat)
    requires dune < StepAt(UNLOCKED) && t < 12 * s.Interval()
    ensures s.During(t).Some?
    ensures dune >= s.During(t).value <==> t - 1 >= (UNLOCKED - StepAbove(dune)) * s.Interval() + Delay(dune, s.Interval())
  {
    hide StepAt, StepAbove, Schedule.Slope, Schedule.Interval;
    var u := s.Interval();
    LengthsLast(u, t);
    SlopeAgrees(s, dune, UNLOCKED - t / u, t % u);
    HeightsAgree(u, t, StepAbove(dune), Delay(dune, u));
  }

  lemma UnlockIs(s: Schedule, network: Network, dune: nat)
    requires dune < StepAt(UNLOCKED)
    ensures s.UnlockHeight(network, dune)
         == Some(s.FirstHeight(network) + (UNLOCKED - StepAbove(dune)) * s.Interval() + Delay(dune, s.Interval()))
  {
    hide StepAt, StepAbove, Schedule.Interval, Schedule.FirstHeight;
    BelowReserved(dune);
  }

  /** Inside a schedule that does not run out of lengths. */
  lemma InsideIff(s: Schedule, network: Network, dune: nat, height: nat)
    requires s.Valid() && s.halving <= 12 * s.Interval() && dune < StepAt(UNLOCKED) && height < U32
    requires s.FirstHeight(network) <= height + 1 < s.FirstHeight(network) + s.halving
    ensures s.MinimumAtHeight(network, height).Some? && s.UnlockHeight(network, dune).Some?
    ensures dune >= s.MinimumAtHeight(network, height).value <==> height >= s.UnlockHeight(network, dune).value
  {
    hide *;
    MinimumIs(s, network, height);
    UnlockIs(s, network, dune);
    DuringIff(s, dune, height + 1 - s.FirstHeight(network));
  }

  lemma FirstFits(s: Schedule, network: Network)
    requires s.Valid()
    ensures s.FirstHeight(network) + s.halving < U32
  {
  }

  lemma BelowReserved(dune: nat)
    requires dune < StepAt(UNLOCKED)
    ensures dune < RESERVED
  {
  }

  /** The unlock height of a dune below the last step is within the schedule. */
  lemma UnlockInside(s: Schedule, network: Network, dune: nat)
    requires s.Valid() && dune < StepAt(UNLOCKED)
    ensures s.UnlockHeight(network, dune).Some?
    ensures s.FirstHeight(network) <= s.UnlockHeight(network, dune).value < s.FirstHeight(network) + 12 * s.Interval()
  {
    hide StepAt, StepAbove, Delay, Schedule.UnlockHeight, Schedule.FirstHeight, Schedule.Interval;
    UnlockIs(s, network, dune);
    Times(UNLOCKED - StepAbove(dune), 11, s.Interval());
    Times(0, UNLOCKED - StepAbove(dune), s.Interval());
  }

  /**
    With twelve whole intervals between halvings, a dune that is not reserved
    reaches the minimum at exactly the heights from its unlock height on.
   */
  lemma UnlockIff(s: Schedule, network: Network, dune: nat, height: nat)
    requires s.Valid() && s.halving % 12 == 0 && dune < RESERVED && height < U32
    ensures s.MinimumAtHeight(network, height).Some? && s.UnlockHeight(network, dune).Some?
    ensures dune >= s.MinimumAtHeight(network, height).value <==> height >= s.UnlockHeight(network, dune).value
  {
    FirstFits(s, network);
    WholeInterval(s);
    var start := s.FirstHeight(network);
    hide StepAt, Schedule.During, Schedule.FirstHeight, Schedule.Interval;
    if dune < StepAt(UNLOCKED) {
      UnlockInside(s, network, dune);
      if start <= height + 1 < start + s.halving {
        InsideIff(s, network, dune, height);
      }
    } else if start <= height + 1 < start + s.halving {
      DuringBelow(s, height + 1 - start);
    }
  }

  lemma DuringBelow(s: Schedule, t: nat)
    ensures t < 12 * s.Interval() ==> s.During(t).Some?
    ensures s.During(t).Some? ==> s.During(t).value <= StepAt(UNLOCKED)
  {
    hide StepAt, Schedule.Slope, Schedule.Interval;
    var u := s.Interval();
    if t < 12 * u { LengthsLast(u, t); }
    if s.HasLength(t) { TopStep(UNLOCKED - t / u); }
  }

  lemma TopStep(length: nat)
    requires length <= UNLOCKED
    ensures StepAt(length) <= StepAt(UNLOCKED)
  {
    hide StepAt;
    StepsGrow(0, 1);
    if length < UNLOCKED { StepsGrow(length, UNLOCKED); }
  }

  /** The minimum never rises with the height. */
  lemma MinimumFalls(s: Schedule, network: Network, low: nat, high: nat)
    requires s.Valid() && s.halving % 12 == 0 && low <= high < U32
    ensures s.MinimumAtHeight(network, low).Some? && s.MinimumAtHeight(network, high).Some?
    ensures s.MinimumAtHeight(network, high).value <= s.MinimumAtHeight(network, low).value
  {
    hide StepAt, StepAbove, Schedule.MinimumAtHeight, Schedule.UnlockHeight;
    UnlockIff(s, network, 0, low);
    MinimumBelowReserved(s, network, low);
    var m := s.MinimumAtHeight(network, low).value;
    UnlockIff(s, network, m, low);
    UnlockIff(s, network, m, high);
  }

  lemma MinimumBelowReserved(s: Schedule, network: Network, height: nat)
    requires height < U32 && s.MinimumAtHeight(network, height).Some?
    ensures s.MinimumAtHeight(network, height).value < RESERVED
  {
    TopBelowReserved();
    hide StepAt, Schedule.During, Schedule.FirstHeight, Schedule.Interval;
    var offset := if height + 1 < U32 then height + 1 else height;
    if offset >= s.FirstHeight(network) {
      DuringBelow(s, offset - s.FirstHeight(network));
    }
  }

  lemma TopBelowReserved()
    ensures StepAt(UNLOCKED) < RESERVED
  {
  }

  /** The halvings before names start to get shorter. */
  predicate StartsAfter(network: Network, halvings: nat) {
    (network == Bitcoin && halvings == 4) || (network == Testnet && halvings == 12)
    || (network != Bitcoin && network != Testnet && halvings == 0)
  }

  /** Before its start a network asks for thirteen letters; from the halving after its start on, for nothing. */
  lemma OutsideSchedule(s: Schedule, network: Network, halvings: nat, height: nat)
    requires s.Valid() && StartsAfter(network, halvings) && height < U32
    ensures height + 1 < halvings * s.halving ==> s.MinimumAtHeight(network, height) == Some(99246114928149462)
    ensures height + 1 >= (halvings + 1) * s.halving ==> s.MinimumAtHeight(network, height) == Some(0)
  {
    assert s.FirstHeight(network) == halvings * s.halving;
    assert s.FirstHeight(network) + s.halving == (halvings + 1) * s.halving;
    assert StepAt(UNLOCKED) == 99246114928149462;
    hide StepAt, Schedule.FirstHeight;
    MinimumIs(s, network, height);
  }

  /** Exactly the reserved dunes never unlock. */
  lemma UnlocksEverIff(s: Schedule, network: Network, dune: nat)
    ensures s.UnlockHeight(network, dune).Some? <==> dune < RESERVED
    ensures 99246114928149462 <= dune < RESERVED ==> s.UnlockHeight(network, dune) == Some(0)
  {
    assert StepAt(UNLOCKED) == 99246114928149462;
    hide StepAt, StepAbove, Delay, Schedule.Interval;
  }

  // -------------------------------------------- the schedule as it is compiled

  /** One block between halvings, as the code is compiled. */
  const COMPILED: Schedule := Schedule(1)

  /** As compiled, every dune that is not reserved is still at the minimum at its unlock height, and the minimum still falls. */
  lemma CompiledMinimum(network: Network, dune: nat, low: nat, high: nat)
    requires dune < RESERVED && low <= high < U32
    ensures var unlock := COMPILED.UnlockHeight(network, dune);
            unlock.Some? && unlock.value < U32 && COMPILED.MinimumAtHeight(network, unlock.value).Some?
            && dune >= COMPILED.MinimumAtHeight(network, unlock.value).value
    ensures COMPILED.MinimumAtHeight(network, low).Some? && COMPILED.MinimumAtHeight(network, high).Some?
    ensures COMPILED.MinimumAtHeight(network, high).value <= COMPILED.MinimumAtHeight(network, low).value
  {
    hide StepAt, StepAbove;
    CompiledAt(network, low);
    CompiledAt(network, high);
    if dune < StepAt(UNLOCKED) {
      UnlockInside(COMPILED, network, dune);
    }
    CompiledAt(network, COMPILED.UnlockHeight(network, dune).value);
  }

  lemma CompiledAt(network: Network, height: nat)
    requires height < U32
    ensures COMPILED.MinimumAtHeight(network, height) == Some(if height < COMPILED.FirstHeight(network) then StepAt(UNLOCKED) else 0)
  {
  }

  /** As compiled, a dune reaches the minimum at exactly the heights from its unlock height on only if its name has at least twelve letters. */
  lemma CompiledIff(network: Network, dune: nat)
    requires dune < RESERVED
    ensures COMPILED.UnlockHeight(network, dune).Some?
    ensures (forall height: nat :: height < U32 ==>
               COMPILED.MinimumAtHeight(network, height).Some?
               && (dune >= COMPILED.MinimumAtHeight(network, height).value <==> height >= COMPILED.UnlockHeight(network, dune).value))
            <==> dune >= StepAt(UNLOCKED - 1)
  {
    hide StepAt, StepAbove, Delay, Schedule.MinimumAtHeight;
    forall height: nat | height < U32 ensures COMPILED.MinimumAtHeight(network, height) == Some(if height < COMPILED.FirstHeight(network) then StepAt(UNLOCKED) else 0) {
      CompiledAt(network, height);
    }
    StepsGrow(UNLOCKED - 1, UNLOCKED);
    if dune < StepAt(UNLOCKED) {
      var i, first := StepAbove(dune), COMPILED.FirstHeight(network);
      UnlockIs(COMPILED, network, dune);
      assert COMPILED.UnlockHeight(network, dune).value == first + UNLOCKED - i;
      if i < UNLOCKED {
        if i < UNLOCKED - 1 { StepsGrow(i, UNLOCKED - 1); }
        assert COMPILED.MinimumAtHeight(network, first) == Some(0) && first < COMPILED.UnlockHeight(network, dune).value;
      }
    }
  }

  // ------------------------------------------------- every number of blocks

  /** Twelve intervals cover all blocks between halvings. */
  predicate Covers(s: Schedule) {
    s.halving <= 12 || s.halving % 12 == 0
  }

  lemma CoversIff(s: Schedule)
    requires s.halving > 0
    ensures Covers(s) <==> s.halving <= 12 * s.Interval()
  {
  }

  lemma PastLengths(u: nat, t: nat)
    requires u > 0 && t >= 12 * u
    ensures t / u >= 12
  {
    DivideBelow(t, t / u + 1, u);
    if t / u < 12 {
      Times(t / u + 1, 12, u);
    }
  }

  /** The program never runs out of name lengths exactly when twelve intervals cover the blocks between halvings. */
  lemma LengthsLastIff(s: Schedule, network: Network)
    requires s.Valid()
    ensures (forall height: nat :: height < U32 ==> s.MinimumAtHeight(network, height).Some?) <==> Covers(s)
  {
    FirstFits(s, network);
    CoversIff(s);
    var start := s.FirstHeight(network);
    if Covers(s) {
      forall height: nat | height < U32 ensures s.MinimumAtHeight(network, height).Some? {
        MinimumIs(s, network, height);
      }
    } else {
      var height := start + s.halving - 2;
      MinimumIs(s, network, height);
      PastLengths(s.Interval(), s.halving - 1);
      assert !s.MinimumAtHeight(network, height).Some?;
    }
  }

  /** The minimum before, inside and after the schedule. */
  lemma MinimumIs(s: Schedule, network: Network, height: nat)
    requires s.Valid() && height < U32
    ensures var start := s.FirstHeight(network);
      s.MinimumAtHeight(network, height) ==
        if height + 1 < start then Some(StepAt(UNLOCKED))
        else if height + 1 >= start + s.halving then Some(0)
        else s.During(height + 1 - start)
    ensures Covers(s) ==> s.MinimumAtHeight(network, height).Some?
  {
    FirstFits(s, network);
    CoversIff(s);
    var start := s.FirstHeight(network);
    hide StepAt, Schedule.During, Schedule.FirstHeight, Schedule.Interval;
    if start <= height + 1 < start + s.halving {
      DuringBelow(s, height + 1 - start);
    }
  }

  /** At a height, there is a minimum, and a dune reaches it exactly when its unlock height has come. */
  ghost predicate Unlocks(s: Schedule, network: Network, dune: nat, height: nat)
    requires height < U32
  {
    && s.MinimumAtHeight(network, height).Some? && s.UnlockHeight(network, dune).Some?
    && (dune >= s.MinimumAtHeight(network, height).value <==> height >= s.UnlockHeight(network, dune).value)
  }

  /** Where the unlock height is the border, one height at a time. */
  lemma UnlocksIff(s: Schedule, network: Network, dune: nat, height: nat)
    requires s.Valid() && Covers(s) && dune < RESERVED && height < U32
    ensures s.UnlockHeight(network, dune).Some?
    ensures var unlock, end := s.UnlockHeight(network, dune).value, s.FirstHeight(network) + s.halving;
      Unlocks(s, network, dune, height) <==> dune >= StepAt(UNLOCKED) || height + 1 < end || height >= unlock
  {
    FirstFits(s, network);
    CoversIff(s);
    MinimumIs(s, network, height);
    var start := s.FirstHeight(network);
    hide StepAt, Schedule.MinimumAtHeight, Schedule.During, Schedule.FirstHeight, Schedule.Interval, Covers;
    if dune < StepAt(UNLOCKED) {
      UnlockInside(s, network, dune);
      if start <= height + 1 < start + s.halving {
        InsideIff(s, network, dune, height);
      }
    } else if start <= height + 1 < start + s.halving {
      DuringBelow(s, height + 1 - start);
    }
  }

  /**
    For every number of blocks between halvings: a dune that is not reserved
    reaches the minimum at exactly the heights from its unlock height on if and
    only if twelve intervals cover those blocks, and it is free from the start
    or unlocks before the schedule ends.
   */
  lemma BorderIff(s: Schedule, network: Network, dune: nat)
    requires s.Valid() && dune < RESERVED
    ensures s.UnlockHeight(network, dune).Some?
    ensures (forall height: nat | height < U32 :: Unlocks(s, network, dune, height))
            <==> Covers(s) && (dune >= StepAt(UNLOCKED)
                               || s.UnlockHeight(network, dune).value < s.FirstHeight(network) + s.halving)
  {
    FirstFits(s, network);
    UnlockExists(s, network, dune);
    hide StepAt, Schedule.MinimumAtHeight, Schedule.UnlockHeight, Schedule.FirstHeight, Schedule.Interval;
    LengthsLastIff(s, network);
    if Covers(s) {
      hide Unlocks, Covers;
      forall height: nat | height < U32
        ensures Unlocks(s, network, dune, height) <==>
                  dune >= StepAt(UNLOCKED) || height + 1 < s.FirstHeight(network) + s.halving
                  || height >= s.UnlockHeight(network, dune).value
      {
        UnlocksIff(s, network, dune, height);
      }
      var last := s.FirstHeight(network) + s.halving - 1;
      assert Unlocks(s, network, dune, last) <==> dune >= StepAt(UNLOCKED) || last >= s.UnlockHeight(network, dune).value;
    } else {
      var height: nat :| height < U32 && !s.MinimumAtHeight(network, height).Some?;
      assert !Unlocks(s, network, dune, height);
    }
  }

  lemma UnlockExists(s: Schedule, network: Network, dune: nat)
    requires s.Valid() && dune < RESERVED
    ensures s.UnlockHeight(network, dune).Some?
  {
    if dune < StepAt(UNLOCKED) { UnlockInside(s, network, dune); }
  }
}
