/** Block rewards, the first koinu of every block, and the block of every koinu. */
module Epochs {
  import opened Wrappers
  import opened Bytes

  const COIN_VALUE: nat := 100_000_000
  const DOGE_MIN_SUBSIDY: nat := 10_000 * COIN_VALUE
  const WONKY_ERA_LEN: nat := 145_006
  const PERIOD: nat := 100_000
  const SEARCH_CAP: nat := 10_000_000
  const U64_MAX: nat := U64 - 1

  /** The data files: the first koinu and the reward of each early block. */
  datatype Tables = Tables(starts: seq<nat>, subsidies: map<nat, nat>)

  // ---------------------------------------------------------------- rewards

  function StandardSubsidy(height: nat): (s: nat)
    ensures 0 < s <= 500_000 * COIN_VALUE
  {
    if height >= 600_000 then DOGE_MIN_SUBSIDY
    else
      var period := height / PERIOD;
      if period <= 1 then 500_000 * COIN_VALUE
      else if period == 2 then 250_000 * COIN_VALUE
      else if period == 3 then 125_000 * COIN_VALUE
      else if period == 4 then 62_500 * COIN_VALUE
      else if period == 5 then 31_250 * COIN_VALUE
      else DOGE_MIN_SUBSIDY
  }

  /** 500,000 coins up to height 200,000; from then on half with every period, until 10,000 coins for ever. */
  lemma RewardHalves(height: nat)
    ensures height < 200_000 ==> StandardSubsidy(height) == 500_000 * COIN_VALUE
    ensures 200_000 <= height < 600_000 ==> 2 * StandardSubsidy(height) == StandardSubsidy(height - PERIOD)
    ensures height >= 600_000 ==> StandardSubsidy(height) == 10_000 * COIN_VALUE
  {
  }

  function BlockSubsidy(t: Tables, height: nat): nat {
    if height in t.subsidies then t.subsidies[height] else StandardSubsidy(height)
  }

  function Cap(n: nat): nat {
    if n < U64 then n else U64_MAX
  }

  /** What the blocks from `from` up to `height` pay by the schedule, one block at a time. */
  function StandardSum(from: nat, height: nat): nat
    decreases height
  {
    if height <= from then 0 else StandardSum(from, height - 1) + StandardSubsidy(height - 1)
  }

  /** The last height whose period still ends within 32 bits. */
  const LAST_PERIOD: nat := 4_294_900_000

  function PeriodEnd(h: nat): nat {
    (h / PERIOD + 1) * PERIOD
  }

  lemma PeriodEndsLater(h: nat)
    ensures h < PeriodEnd(h) <= h + PERIOD
    ensures h < LAST_PERIOD <==> PeriodEnd(h) < U32
  {
  }

  function Times(blocks: nat, subsidy: nat): nat {
    blocks * subsidy
  }

  /** None when the end of a period leaves 32 bits, where the walk does not come to an end. */
  method CumulativePostWonky(height: nat) returns (r: Option<nat>)
    requires height < U32
    ensures r == if height <= LAST_PERIOD then Some(Cap(StandardSum(WONKY_ERA_LEN, height))) else None
  {
    hide StandardSum, StandardSubsidy, PeriodEnd, Times, Cap;
    if height <= WONKY_ERA_LEN {
      NothingPaid(WONKY_ERA_LEN, height);
      NothingCap();
      return Some(0);
    }
    var total := 0;
    NothingCap();
    var h := WONKY_ERA_LEN;
    NothingPaid(WONKY_ERA_LEN, h);
    while h < height
      invariant WONKY_ERA_LEN <= h <= height && h <= LAST_PERIOD
      invariant total == Cap(StandardSum(WONKY_ERA_LEN, h))
      decreases height - h
    {
      var subsidy := StandardSubsidy(h);
      PeriodEndsLater(h);
      var periodEnd := PeriodEnd(h);
      if periodEnd >= U32 { return None; }
      periodEnd := if periodEnd < height then periodEnd else height;
      var blocks := periodEnd - h;
      PeriodPays(WONKY_ERA_LEN, h, periodEnd);
      SaturatingSum(StandardSum(WONKY_ERA_LEN, h), Times(blocks, subsidy));
      PeriodEndBound(h);
      total := Cap(total + Cap(Times(blocks, subsidy)));
      h := periodEnd;
    }
    return Some(total);
  }

  /** Periods end at multiples of their length, the last of them within 32 bits at the last one. */
  lemma PeriodEndBound(h: nat)
    ensures PeriodEnd(h) < U32 ==> PeriodEnd(h) <= LAST_PERIOD
  {
  }

  lemma NothingCap()
    ensures Cap(0) == 0
  {
  }

  lemma NothingPaid(from: nat, height: nat)
    requires height <= from
    ensures StandardSum(from, height) == 0
  {
  }

  lemma SaturatingSum(a: nat, b: nat)
    ensures Cap(Cap(a) + Cap(b)) == Cap(a + b)
  {
  }

  lemma SamePeriod(h: nat, k: nat)
    requires h / PERIOD == k / PERIOD
    ensures StandardSubsidy(h) == StandardSubsidy(k)
  {
  }

  /** The blocks of one period all pay the same. */
  lemma {:induction false} PeriodPays(from: nat, h: nat, end: nat)
    requires from <= h <= end <= PeriodEnd(h)
    ensures StandardSum(from, end) == StandardSum(from, h) + Times(end - h, StandardSubsidy(h))
    decreases end
  {
    hide StandardSubsidy;
    if h < end {
      PeriodPays(from, h, end - 1);
      assert (end - 1) / PERIOD == h / PERIOD;
      SamePeriod(h, end - 1);
      var n, s := end - 1 - h, StandardSubsidy(h);
      assert n * s + s == (n + 1) * s;
    }
  }

  function Last(t: Tables): nat {
    if t.starts == [] then 0 else t.starts[|t.starts| - 1]
  }

  function StartingKoinu(t: Tables, height: nat): nat {
    if height < |t.starts| then t.starts[height]
    else Cap(Last(t) + Cap(StandardSum(WONKY_ERA_LEN, height)))
  }

  method FindStart(t: Tables, height: nat) returns (r: Option<nat>)
    requires height < U32
    ensures r == if height < |t.starts| || height <= LAST_PERIOD then Some(StartingKoinu(t, height)) else None
  {
    if height < |t.starts| { return Some(t.starts[height]); }
    var postWonky := CumulativePostWonky(height);
    return if postWonky.None? then None else Some(Cap(Last(t) + postWonky.value));
  }

  // ----------------------------------------------------- the block of a koinu

  /** The number of entries before the first that is not below the target. */
  function Insertion(starts: seq<nat>, target: nat): (i: nat)
    ensures i <= |starts|
    ensures forall k :: 0 <= k < i ==> starts[k] < target
    ensures i < |starts| ==> starts[i] >= target
  {
    if starts == [] || starts[0] >= target then 0
    else
      var i := Insertion(starts[1..], target);
      assert forall k :: 0 < k <= i ==> starts[k] == starts[1..][k - 1];
      i + 1
  }

  /** Walks forward block by block; sums of 64 bits wrap around. */
  function Search(t: Tables, target: nat, h: nat, cumulative: nat): (epoch: nat)
    requires h <= SEARCH_CAP
    ensures h <= epoch <= SEARCH_CAP + 1
    decreases SEARCH_CAP - h
  {
    var next := (cumulative + BlockSubsidy(t, h)) % U64;
    if next > target || BlockSubsidy(t, h) == 0 then h
    else if h + 1 > SEARCH_CAP then h + 1
    else Search(t, target, h + 1, next)
  }

  function SaturatingPred(n: nat): nat {
    if n == 0 then 0 else n - 1
  }

  function EpochOf(t: Tables, target: nat): nat {
    var starts := t.starts;
    var i, previous := Insertion(starts, target), SaturatingPred(|t.starts|);
    if i < |starts| && starts[i] == target then i
    else if i == 0 then 0
    else if i < |starts| then i - 1
    else if target < Last(t) then previous
    else Search(t, target, WONKY_ERA_LEN, Last(t))
  }

  method FindEpoch(t: Tables, target: nat) returns (epoch: nat)
    ensures epoch == EpochOf(t, target)
  {
    hide BlockSubsidy, Insertion;
    var starts := t.starts;
    var i := Insertion(starts, target);
    var previous := SaturatingPred(|starts|);
    if i < |starts| && starts[i] == target { return i; }
    if i == 0 { return 0; }
    if i < |starts| { return i - 1; }
    var wonkyTotal := Last(t);
    if target < wonkyTotal { return previous; }
    var h: nat, cumulative: nat := WONKY_ERA_LEN, wonkyTotal;
    while true
      invariant h <= SEARCH_CAP
      invariant Search(t, target, WONKY_ERA_LEN, wonkyTotal) == Search(t, target, h, cumulative)
      decreases SEARCH_CAP - h
    {
      var subsidy := BlockSubsidy(t, h);
      if (cumulative + subsidy) % U64 > target || subsidy == 0 { return h; }
      cumulative := (cumulative + subsidy) % U64;
      h := h + 1;
      if h > SEARCH_CAP { return h; }
    }
  }

  // --------------------------------------------------- a koinu as a decimal

  datatype DecimalKoinu = DecimalKoinu(height: nat, offset: nat)

  /** How far a koinu is from the start of the block found; below it the difference wraps. */
  function EpochPosition(t: Tables, koinu: nat): (p: nat)
    ensures p < U64
  {
    (koinu - StartingKoinu(t, EpochOf(t, koinu))) % U64
  }

  /**
    Whole rewards past the start of the block found count as further blocks,
    and the height wraps.  The program stops on a reward of zero, and on a
    number of blocks that leaves 32 bits.
   */
  function Spread(epoch: nat, position: nat, subsidy: nat): Option<DecimalKoinu> {
    if subsidy == 0 || position / subsidy >= U32 then None
    else Some(DecimalKoinu((epoch + position / subsidy) % U32, position % subsidy))
  }

  function Decimal(t: Tables, koinu: nat): Option<DecimalKoinu> {
    Spread(EpochOf(t, koinu), EpochPosition(t, koinu), BlockSubsidy(t, EpochOf(t, koinu)))
  }

  /** None for an offset past the reward of the block; the sum wraps. */
  function FromDecimal(t: Tables, d: DecimalKoinu): Option<nat> {
    if d.offset >= BlockSubsidy(t, d.height) then None else Some((StartingKoinu(t, d.height) + d.offset) % U64)
  }
}
