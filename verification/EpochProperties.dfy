/**
  The block of a koinu, for every table of strictly increasing starts: the one
  the program has, with a start for each early block, and the one that also
  holds the total at the end of the era.
 */
module EpochProperties {
  import opened Wrappers
  import opened Bytes
  import opened Epochs

  /** Strictly increasing starts of the early blocks, with or without the total after them. */
  ghost predicate Increasing(t: Tables) {
    && (|t.starts| == WONKY_ERA_LEN || |t.starts| == WONKY_ERA_LEN + 1)
    && t.starts[0] == 0 && Last(t) < U64
    && (forall i, j :: 0 <= i < j < |t.starts| ==> t.starts[i] < t.starts[j])
    && (forall h :: h in t.subsidies ==> h < WONKY_ERA_LEN)
  }

  /** What has been paid by the schedule before a later block, on top of the last start. */
  function Later(t: Tables, h: nat): nat {
    Last(t) + StandardSum(WONKY_ERA_LEN, h)
  }

  function Begin(t: Tables, h: nat): nat {
    if h < |t.starts| then t.starts[h] else Later(t, h)
  }

  /** The next start; the last early block of a table without the total has its first koinu only. */
  function End(t: Tables, h: nat): nat {
    if h + 1 < |t.starts| then t.starts[h + 1]
    else if h < WONKY_ERA_LEN then Last(t) + 1
    else Later(t, h + 1)
  }

  /** A koinu between the start of a block and the next one; the last start belongs to the block in the table. */
  predicate Encloses(t: Tables, h: nat, k: nat) {
    Begin(t, h) <= k < End(t, h) && (k == Last(t) ==> h + 1 == |t.starts|)
  }

  // -------------------------------------------------------------- the search

  /** What the blocks from `from` up to `height` pay on top of a sum. */
  function Running(t: Tables, sum: nat, from: nat, height: nat): nat
    decreases height
  {
    if height <= from then sum else Running(t, sum, from, height - 1) + BlockSubsidy(t, height - 1)
  }

  /** The sum of 64 bits with this block in it is past the target, or the block pays nothing. */
  predicate EndsAt(t: Tables, sum: nat, from: nat, height: nat, target: nat) {
    Running(t, sum, from, height + 1) % U64 > target || BlockSubsidy(t, height) == 0
  }

  lemma {:induction false} RunningFrom(t: Tables, sum: nat, from: nat, height: nat)
    requires from < height
    ensures Running(t, sum, from, height) % U64 == Running(t, (sum + BlockSubsidy(t, from)) % U64, from + 1, height) % U64
    decreases height
  {
    hide BlockSubsidy;
    if from + 1 < height {
      RunningFrom(t, sum, from, height - 1);
      var a, b := Running(t, sum, from, height - 1), Running(t, (sum + BlockSubsidy(t, from)) % U64, from + 1, height - 1);
      SameModulo(a, b, BlockSubsidy(t, height - 1));
    } else {
      assert Running(t, sum, from, from) == sum;
      var next := (sum + BlockSubsidy(t, from)) % U64;
      assert Running(t, next, from + 1, height) == next;
    }
  }

  lemma SameModulo(a: nat, b: nat, c: nat)
    requires a % U64 == b % U64
    ensures (a + c) % U64 == (b + c) % U64
  {
  }

  /** For every table: the search answers the first block that ends it, or the one past ten million. */
  lemma {:induction false} SearchMeaning(t: Tables, target: nat, from: nat, sum: nat)
    requires from <= SEARCH_CAP
    ensures var e := Search(t, target, from, sum);
      && from <= e <= 10_000_001
      && (forall h :: from <= h < e ==> !EndsAt(t, sum, from, h, target))
      && (e <= 10_000_000 ==> EndsAt(t, sum, from, e, target))
    decreases SEARCH_CAP - from
  {
    hide BlockSubsidy;
    var next := (sum + BlockSubsidy(t, from)) % U64;
    assert Running(t, sum, from, from) == sum;
    if next <= target && BlockSubsidy(t, from) != 0 && from + 1 <= SEARCH_CAP {
      SearchMeaning(t, target, from + 1, next);
      forall h | from + 1 <= h ensures EndsAt(t, sum, from, h, target) <==> EndsAt(t, next, from + 1, h, target) {
        RunningFrom(t, sum, from, h + 1);
      }
    }
  }

  /** The position of a koinu, counted from the start of the block found, leads to the koinu in 64 bits, also below that start. */
  lemma PositionLeads(t: Tables, koinu: nat)
    requires koinu < U64
    ensures EpochPosition(t, koinu) < U64
    ensures (StartingKoinu(t, EpochOf(t, koinu)) + EpochPosition(t, koinu)) % U64 == koinu
  {
    hide StartingKoinu, EpochOf;
  }

  // --------------------------------------------------------------- in order

  lemma {:induction false} LaterGrows(t: Tables, a: nat, b: nat)
    requires WONKY_ERA_LEN <= a <= b
    ensures Later(t, a) <= Later(t, b) && (a < b ==> Later(t, a) < Later(t, b))
    decreases b
  {
    hide StandardSubsidy;
    if a < b { LaterGrows(t, a, b - 1); }
  }

  lemma LaterStarts(t: Tables)
    ensures Later(t, WONKY_ERA_LEN) == Last(t)
  {
    NothingPaid(WONKY_ERA_LEN, WONKY_ERA_LEN);
  }

  lemma LaterNext(t: Tables, h: nat)
    requires Increasing(t) && h >= WONKY_ERA_LEN
    ensures Later(t, h + 1) == Later(t, h) + BlockSubsidy(t, h) && BlockSubsidy(t, h) == StandardSubsidy(h)
  {
  }

  /** The start of a block as the code computes it is capped at 64 bits. */
  lemma StartIsBegin(t: Tables, h: nat)
    requires Increasing(t)
    ensures StartingKoinu(t, h) == Cap(Begin(t, h))
  {
    hide StandardSum;
    if h < |t.starts| {
      assert h + 1 < |t.starts| ==> t.starts[h] < t.starts[|t.starts| - 1];
    } else {
      SaturatingSum(Last(t), StandardSum(WONKY_ERA_LEN, h));
    }
  }

  // -------------------------------------------------- the block of a koinu

  /** Up to the last start, the block found is the one in the table whose start is the last not above the koinu. */
  lemma FoundInTable(t: Tables, k: nat)
    requires Increasing(t) && k <= Last(t)
    ensures var i := EpochOf(t, k); i < |t.starts| && t.starts[i] <= k && (i + 1 < |t.starts| ==> k < t.starts[i + 1])
  {
    hide Search;
  }

  lemma PastTable(t: Tables, k: nat)
    requires Increasing(t) && k > Last(t)
    ensures EpochOf(t, k) == Search(t, k, WONKY_ERA_LEN, Later(t, WONKY_ERA_LEN))
  {
    hide Search, Later;
    LaterStarts(t);
    forall j | 0 <= j < |t.starts| ensures t.starts[j] <= Last(t) {
      TableOrder(t, j, |t.starts| - 1);
    }
  }

  lemma SearchHit(t: Tables, k: nat, h: nat)
    requires Increasing(t) && WONKY_ERA_LEN <= h <= SEARCH_CAP && k < Later(t, h + 1) < U64
    ensures Search(t, k, h, Later(t, h)) == h
  {
    hide BlockSubsidy, Increasing, Later;
    LaterNext(t, h);
  }

  lemma SearchStep(t: Tables, k: nat, h: nat)
    requires Increasing(t) && WONKY_ERA_LEN <= h < SEARCH_CAP && Later(t, h + 1) <= k < U64
    ensures Search(t, k, h, Later(t, h)) == Search(t, k, h + 1, Later(t, h + 1))
  {
    hide BlockSubsidy, Increasing, Later;
    LaterNext(t, h);
  }

  lemma {:induction false} SearchPasses(t: Tables, k: nat, from: nat, h: nat)
    requires Increasing(t) && WONKY_ERA_LEN <= from <= h <= SEARCH_CAP && Later(t, h) <= k < U64
    ensures Search(t, k, from, Later(t, from)) == Search(t, k, h, Later(t, h))
    decreases h - from
  {
    hide Increasing, Later, Search;
    if from < h {
      LaterGrows(t, from + 1, h);
      SearchStep(t, k, from);
      SearchPasses(t, k, from + 1, h);
    }
  }

  lemma SearchWraps(t: Tables, k: nat, h: nat)
    requires Increasing(t) && WONKY_ERA_LEN <= h <= SEARCH_CAP && Later(t, h) <= k < U64 <= Later(t, h + 1)
    ensures Search(t, k, h, Later(t, h)) > h
  {
    hide BlockSubsidy, Increasing, Later;
    LaterNext(t, h);
    assert (Later(t, h) + BlockSubsidy(t, h)) % U64 == Later(t, h + 1) - U64;
  }

  lemma SearchStops(t: Tables, k: nat)
    requires Increasing(t) && Later(t, SEARCH_CAP + 1) <= k < U64
    ensures Search(t, k, SEARCH_CAP, Later(t, SEARCH_CAP)) == SEARCH_CAP + 1
  {
    hide BlockSubsidy, Increasing, Later;
    LaterNext(t, SEARCH_CAP);
  }

  lemma {:induction false} TableOrder(t: Tables, i: nat, j: nat)
    requires Increasing(t) && i <= j < |t.starts|
    ensures t.starts[i] <= t.starts[j] <= Last(t) && (i < j ==> t.starts[i] < t.starts[j])
  {
    assert j < |t.starts| - 1 ==> t.starts[j] < t.starts[|t.starts| - 1];
  }

  /** A koinu is found in the block that encloses it, up to the search cap, when the block ends within 64 bits. */
  lemma EpochFound(t: Tables, k: nat, h: nat)
    requires Increasing(t) && h <= SEARCH_CAP && Encloses(t, h, k) && End(t, h) < U64
    ensures EpochOf(t, k) == h
  {
    hide Search, EpochOf, Later, Increasing;
    if k <= Last(t) {
      FoundInTable(t, k);
      var i := EpochOf(t, k);
      SizeOfTable(t);
      LaterStarts(t);
      if h >= |t.starts| { LaterGrows(t, WONKY_ERA_LEN, h); }
      if i < h < |t.starts| { TableOrder(t, i + 1, h); }
      if h < i { TableOrder(t, h + 1, i); }
    } else {
      SizeOfTable(t);
      if h < |t.starts| { TableOrder(t, h, |t.starts| - 1); }
      if h + 1 < |t.starts| { TableOrder(t, h + 1, |t.starts| - 1); }
      LaterStarts(t);
      PastTable(t, k);
      SearchPasses(t, k, WONKY_ERA_LEN, h);
      SearchHit(t, k, h);
    }
  }

  lemma SizeOfTable(t: Tables)
    requires Increasing(t)
    ensures WONKY_ERA_LEN <= |t.starts| <= WONKY_ERA_LEN + 1 && Last(t) == t.starts[|t.starts| - 1] < U64
  {
  }

  /** After the early era and up to the cap, the enclosing block is found exactly when its end fits 64 bits. */
  lemma EpochIff(t: Tables, k: nat, h: nat)
    requires Increasing(t) && WONKY_ERA_LEN <= h <= SEARCH_CAP && Later(t, h) <= k < Later(t, h + 1) && Last(t) < k < U64
    ensures EpochOf(t, k) == h <==> Later(t, h + 1) < U64
  {
    hide Search, EpochOf, Later, Increasing;
    PastTable(t, k);
    SearchPasses(t, k, WONKY_ERA_LEN, h);
    if Later(t, h + 1) < U64 {
      SearchHit(t, k, h);
    } else {
      SearchWraps(t, k, h);
    }
  }

  /** A koinu of a block beyond the cap is taken for one of the block just past the cap. */
  lemma EpochCapped(t: Tables, k: nat, h: nat)
    requires Increasing(t) && h > SEARCH_CAP && Later(t, h) <= k < U64
    ensures EpochOf(t, k) == SEARCH_CAP + 1
  {
    hide Search, EpochOf, Later, Increasing;
    LaterStarts(t);
    LaterGrows(t, WONKY_ERA_LEN, SEARCH_CAP);
    LaterGrows(t, SEARCH_CAP, SEARCH_CAP + 1);
    LaterGrows(t, SEARCH_CAP + 1, h);
    PastTable(t, k);
    SearchPasses(t, k, WONKY_ERA_LEN, SEARCH_CAP);
    SearchStops(t, k);
  }

  /** Every koinu is enclosed by at most one block. */
  lemma OneBlock(t: Tables, k: nat, g: nat, h: nat)
    requires Increasing(t) && g < h
    ensures !(Encloses(t, g, k) && Encloses(t, h, k))
  {
    hide Later, Increasing;
    SizeOfTable(t);
    LaterStarts(t);
    if h < |t.starts| {
      TableOrder(t, g + 1, h);
    } else if g + 1 < |t.starts| {
      TableOrder(t, g + 1, |t.starts| - 1);
      LaterGrows(t, WONKY_ERA_LEN, h);
    } else if g < WONKY_ERA_LEN {
      LaterGrows(t, WONKY_ERA_LEN, h);
    } else {
      LaterGrows(t, g + 1, h);
    }
  }

  /** The block found encloses the koinu, and no other block does. */
  lemma EpochUnique(t: Tables, k: nat, h: nat)
    requires Increasing(t) && h <= SEARCH_CAP && Encloses(t, h, k) && End(t, h) < U64
    ensures Encloses(t, EpochOf(t, k), k)
    ensures forall g: nat :: Encloses(t, g, k) ==> g == EpochOf(t, k)
  {
    hide EpochOf, Encloses, Increasing, End;
    EpochFound(t, k, h);
    forall g: nat | Encloses(t, g, k) ensures g == h {
      if g < h { OneBlock(t, k, g, h); }
      if h < g { OneBlock(t, k, h, g); }
    }
  }

  /** Below any later start, and within the table, some block encloses the koinu. */
  lemma {:induction false} InsideTable(t: Tables, k: nat, n: nat) returns (h: nat)
    requires Increasing(t) && n < |t.starts| && k < t.starts[n]
    ensures h < n && t.starts[h] <= k < t.starts[h + 1]
    decreases n
  {
    hide Increasing;
    SizeOfTable(t);
    StartsAtZero(t);
    h := n - 1;
    if k < t.starts[h] {
      h := InsideTable(t, k, n - 1);
    }
  }

  lemma StartsAtZero(t: Tables)
    requires Increasing(t)
    ensures t.starts[0] == 0
  {
  }

  lemma {:induction false} InsideSchedule(t: Tables, k: nat, n: nat) returns (h: nat)
    requires Increasing(t) && n >= WONKY_ERA_LEN && Last(t) <= k < Later(t, n)
    ensures WONKY_ERA_LEN <= h < n && Later(t, h) <= k < Later(t, h + 1)
    decreases n
  {
    hide Increasing, Later;
    LaterStarts(t);
    h := n - 1;
    if k < Later(t, h) {
      h := InsideSchedule(t, k, n - 1);
    }
  }

  /** Every koinu before a later block is enclosed by an earlier one. */
  lemma EnclosedBefore(t: Tables, k: nat, n: nat) returns (h: nat)
    requires Increasing(t) && n > WONKY_ERA_LEN && k < Later(t, n)
    ensures h < n && Encloses(t, h, k) && End(t, h) <= Later(t, n)
  {
    hide Increasing, Later;
    SizeOfTable(t);
    LaterStarts(t);
    LaterGrows(t, WONKY_ERA_LEN, n);
    if k < Last(t) {
      h := InsideTable(t, k, |t.starts| - 1);
      TableOrder(t, h + 1, |t.starts| - 1);
    } else if k == Last(t) {
      h := |t.starts| - 1;
      LaterGrows(t, WONKY_ERA_LEN, WONKY_ERA_LEN + 1);
      LaterGrows(t, WONKY_ERA_LEN + 1, n);
    } else {
      h := InsideSchedule(t, k, n);
      LaterGrows(t, h + 1, n);
    }
  }

  lemma {:induction false} LaterUnbounded(t: Tables, n: nat)
    requires Increasing(t)
    ensures Later(t, WONKY_ERA_LEN + n) >= n
  {
    hide Increasing, Later;
    if n > 0 {
      LaterUnbounded(t, n - 1);
      LaterGrows(t, WONKY_ERA_LEN + n - 1, WONKY_ERA_LEN + n);
    }
  }

  /** Every koinu is enclosed by exactly one block. */
  lemma EveryKoinu(t: Tables, k: nat)
    requires Increasing(t)
    ensures exists h: nat :: Encloses(t, h, k) && forall g: nat :: Encloses(t, g, k) ==> g == h
  {
    hide Increasing, Later, Encloses;
    LaterUnbounded(t, k + 1);
    var h := EnclosedBefore(t, k, WONKY_ERA_LEN + k + 1);
    forall g: nat | Encloses(t, g, k) ensures g == h {
      if g < h { OneBlock(t, k, g, h); }
      if h < g { OneBlock(t, k, h, g); }
    }
  }

  /** Below any later start up to the cap that fits 64 bits, the block found encloses the koinu, whatever koinu it is. */
  lemma EpochEncloses(t: Tables, k: nat, n: nat)
    requires Increasing(t) && WONKY_ERA_LEN < n <= SEARCH_CAP + 1 && k < Later(t, n) < U64
    ensures EpochOf(t, k) < n && Encloses(t, EpochOf(t, k), k)
  {
    hide Increasing, Later, Encloses, EpochOf, End;
    var h := EnclosedBefore(t, k, n);
    EpochFound(t, k, h);
  }

  // --------------------------------------------------------------- decimals

  lemma WithinOne(h: nat, position: nat, subsidy: nat)
    requires position < subsidy && h < U32
    ensures Spread(h, position, subsidy) == Some(DecimalKoinu(h, position))
  {
    SmallDivision(position, subsidy);
  }

  lemma SmallDivision(position: nat, subsidy: nat)
    requires position < subsidy
    ensures position / subsidy == 0 && position % subsidy == position
  {
  }

  /** A position past the reward gives another height: a higher one, or a lower one when the height wraps. */
  lemma AtLeastOne(h: nat, position: nat, subsidy: nat)
    requires 0 < subsidy <= position && h < U32
    ensures var d := Spread(h, position, subsidy); d.Some? ==> d.value.height != h && d.value.offset < subsidy
  {
    Quotient(position, subsidy);
    var q := position / subsidy;
    if 0 < q < U32 {
      assert (h + q) % U32 == if h + q < U32 then h + q else h + q - U32;
    }
  }

  lemma Quotient(position: nat, subsidy: nat)
    requires 0 < subsidy
    ensures position == position / subsidy * subsidy + position % subsidy && position % subsidy < subsidy
    ensures subsidy <= position ==> position / subsidy > 0
  {
  }

  lemma NoReward(h: nat, position: nat)
    ensures Spread(h, position, 0) == None
  {
  }

  /** Starts of higher blocks lie beyond the end of a block in the table. */
  lemma StartsBeyond(t: Tables, h: nat, g: nat, k: nat)
    requires Increasing(t) && h + 1 < |t.starts| && h < g && k < t.starts[h + 1]
    ensures StartingKoinu(t, g) > k
  {
    hide Increasing, StartingKoinu, Later;
    StartIsBegin(t, g);
    SizeOfTable(t);
    if g < |t.starts| {
      TableOrder(t, h + 1, g);
    } else {
      TableOrder(t, h + 1, |t.starts| - 1);
      LaterStarts(t);
      LaterGrows(t, WONKY_ERA_LEN, g);
    }
  }

  /** Starts of lower blocks are not higher. */
  lemma StartsNotAbove(t: Tables, h: nat, g: nat)
    requires Increasing(t) && g < h && h < |t.starts|
    ensures StartingKoinu(t, g) <= t.starts[h]
  {
    hide Increasing, StartingKoinu;
    StartIsBegin(t, g);
    SizeOfTable(t);
    TableOrder(t, g, h);
    TableOrder(t, h, |t.starts| - 1);
  }

  predicate ReadsBack(t: Tables, k: nat) {
    Decimal(t, k).Some? && FromDecimal(t, Decimal(t, k).value) == Some(k)
  }

  /** What a decimal is, once the block is known. */
  lemma DecimalIs(t: Tables, k: nat, h: nat)
    requires Increasing(t) && EpochOf(t, k) == h && Begin(t, h) <= k < U64
    ensures Decimal(t, k) == Spread(h, k - Begin(t, h), BlockSubsidy(t, h))
  {
    hide EpochOf, BlockSubsidy, Increasing, StartingKoinu, Begin, Spread;
    StartIsBegin(t, h);
  }

  lemma OffsetAfterEra(t: Tables, h: nat, k: nat)
    requires Increasing(t) && h >= WONKY_ERA_LEN && Encloses(t, h, k)
    ensures k - Begin(t, h) < BlockSubsidy(t, h)
  {
    hide BlockSubsidy, Increasing, Later;
    SizeOfTable(t);
    LaterStarts(t);
    LaterNext(t, h);
  }

  /** Past the reward of an early block, no decimal of another block with a smaller offset reads as the koinu. */
  lemma OtherBlock(t: Tables, k: nat, h: nat, d: DecimalKoinu)
    requires Increasing(t) && h + 1 < |t.starts| && t.starts[h] <= k < t.starts[h + 1]
    requires BlockSubsidy(t, h) <= k - t.starts[h] && d.offset < BlockSubsidy(t, h) && d.height != h
    ensures FromDecimal(t, d) != Some(k)
  {
    hide Increasing, StartingKoinu, BlockSubsidy;
    SizeOfTable(t);
    TableOrder(t, h + 1, |t.starts| - 1);
    StartIsBegin(t, d.height);
    if d.height > h {
      StartsBeyond(t, h, d.height, k);
    } else {
      StartsNotAbove(t, h, d.height);
    }
  }

  /** Reading a koinu's decimal gives the koinu back exactly when its offset from the start is below the reward of its block. */
  lemma ReadsBackIff(t: Tables, k: nat, h: nat)
    requires Increasing(t) && h <= SEARCH_CAP && Encloses(t, h, k) && End(t, h) < U64
    ensures ReadsBack(t, k) <==> k - Begin(t, h) < BlockSubsidy(t, h)
    ensures ReadsBack(t, k) ==> Decimal(t, k) == Some(DecimalKoinu(h, k - Begin(t, h)))
  {
    hide EpochOf, BlockSubsidy, Increasing, StartingKoinu, Later, Decimal, Spread;
    EpochFound(t, k, h);
    DecimalIs(t, k, h);
    StartIsBegin(t, h);
    SizeOfTable(t);
    var position, subsidy := k - Begin(t, h), BlockSubsidy(t, h);
    if position < subsidy {
      WithinOne(h, position, subsidy);
    } else if subsidy > 0 {
      if h >= WONKY_ERA_LEN {
        OffsetAfterEra(t, h, k);
      }
      AtLeastOne(h, position, subsidy);
      if Decimal(t, k).Some? {
        OtherBlock(t, k, h, Decimal(t, k).value);
      }
    } else {
      NoReward(h, position);
    }
  }

  /** The same for every koinu below a later start that fits 64 bits, said of the block found. */
  lemma FoundReadsBackIff(t: Tables, k: nat, n: nat)
    requires Increasing(t) && WONKY_ERA_LEN < n <= SEARCH_CAP + 1 && k < Later(t, n) < U64
    ensures var e := EpochOf(t, k); Begin(t, e) <= k && (ReadsBack(t, k) <==> k - Begin(t, e) < BlockSubsidy(t, e))
  {
    hide Increasing, Later, EpochOf, End, ReadsBack, BlockSubsidy, Begin;
    var h := EnclosedBefore(t, k, n);
    EpochFound(t, k, h);
    ReadsBackIff(t, k, h);
  }

  /** After the early era every decimal reads back. */
  lemma ReadsBackAfterEra(t: Tables, k: nat, h: nat)
    requires Increasing(t) && WONKY_ERA_LEN <= h <= SEARCH_CAP && Last(t) < k && Later(t, h) <= k < Later(t, h + 1) < U64
    ensures Decimal(t, k) == Some(DecimalKoinu(h, k - Later(t, h))) && ReadsBack(t, k)
  {
    hide Decimal, BlockSubsidy, Increasing, Later;
    SizeOfTable(t);
    LaterStarts(t);
    OffsetAfterEra(t, h, k);
    ReadsBackIff(t, k, h);
  }

  /** Blocks after the last halving all pay the same. */
  lemma {:induction false} FloorSum(t: Tables, from: nat, h: nat)
    requires WONKY_ERA_LEN < 600_000 <= from <= h
    ensures Later(t, h) == Later(t, from) + (h - from) * DOGE_MIN_SUBSIDY
    decreases h
  {
    hide StandardSubsidy;
    if from < h {
      FloorSum(t, from, h - 1);
      FloorSubsidy(h - 1);
    }
  }

  lemma Blocks(epoch: nat, position: nat, n: nat, r: nat)
    requires position == n * DOGE_MIN_SUBSIDY + r && r < DOGE_MIN_SUBSIDY && epoch + n < U32
    ensures Spread(epoch, position, DOGE_MIN_SUBSIDY) == Some(DecimalKoinu(epoch + n, r))
  {
  }

  /** Beyond the search cap the block found is wrong, but the decimal still has the right height and reads back. */
  lemma ReadsBackBeyondCap(t: Tables, k: nat, h: nat)
    requires Increasing(t) && h > SEARCH_CAP && Later(t, h) <= k < Later(t, h + 1) && k < U64
    ensures Decimal(t, k) == Some(DecimalKoinu(h, k - Later(t, h))) && ReadsBack(t, k)
  {
    hide Decimal, BlockSubsidy, Increasing, Later, EpochOf, StartingKoinu, StandardSubsidy, Spread;
    var g := SEARCH_CAP + 1;
    EpochCapped(t, k, h);
    SizeOfTable(t);
    FloorSum(t, g, h);
    FloorSum(t, h, h + 1);
    LaterNext(t, g);
    LaterNext(t, h);
    FloorSubsidy(g);
    FloorSubsidy(h);
    DecimalIs(t, k, g);
    Blocks(g, k - Later(t, g), h - g, k - Later(t, h));
    StartIsBegin(t, h);
  }

  lemma FloorSubsidy(h: nat)
    requires h >= 600_000
    ensures StandardSubsidy(h) == DOGE_MIN_SUBSIDY
  {
  }

  /** The block found is at least any block whose start is not above the koinu. */
  lemma EpochAtLeast(t: Tables, k: nat, i: nat)
    requires Increasing(t) && i < |t.starts| && t.starts[i] <= k
    ensures EpochOf(t, k) >= i && (k > Last(t) ==> EpochOf(t, k) >= WONKY_ERA_LEN)
  {
    hide Search, EpochOf, Later, Increasing;
    if k <= Last(t) {
      FoundInTable(t, k);
      var g := EpochOf(t, k);
      if g < i { TableOrder(t, g + 1, i); }
    } else {
      PastTable(t, k);
      SizeOfTable(t);
    }
  }

  /**
    A decimal is accepted exactly when its offset is below the reward of its
    block, and is then the decimal of its koinu exactly when the block encloses
    that koinu.
   */
  lemma DecimalKeptIff(t: Tables, d: DecimalKoinu)
    requires Increasing(t) && d.height <= SEARCH_CAP && End(t, d.height) < U64
    requires Begin(t, d.height) + BlockSubsidy(t, d.height) < U64
    ensures FromDecimal(t, d).Some? <==> d.offset < BlockSubsidy(t, d.height)
    ensures FromDecimal(t, d).Some? ==>
              (Decimal(t, FromDecimal(t, d).value) == Some(d) <==> Encloses(t, d.height, Begin(t, d.height) + d.offset))
  {
    hide EpochOf, BlockSubsidy, Increasing, StartingKoinu, Later, Decimal, Begin, End;
    StartIsBegin(t, d.height);
    if d.offset < BlockSubsidy(t, d.height) {
      var k := Begin(t, d.height) + d.offset;
      if Encloses(t, d.height, k) {
        ReadsBackIff(t, k, d.height);
      } else {
        NotEnclosed(t, d);
      }
    }
  }

  lemma FirstKoinu(h: nat, subsidy: nat)
    requires h < U32
    ensures Spread(h, 0, subsidy).Some? ==> Spread(h, 0, subsidy).value.height == h
  {
  }

  /** After the early era the height of a decimal neither wraps nor falls below the block found. */
  lemma LaterHeight(epoch: nat, position: nat)
    requires epoch <= SEARCH_CAP + 1 && position < U64
    ensures var d := Spread(epoch, position, StandardSubsidy(epoch)); d.Some? ==> d.value.height >= epoch
  {
    var s := StandardSubsidy(epoch);
    assert s >= DOGE_MIN_SUBSIDY;
    Quotient(position, s);
    var q := position / s;
    FewBlocks(q, s, position);
    assert (epoch + q) % U32 == epoch + q;
  }

  lemma Monotone(a: nat, b: nat, s: nat)
    requires a <= b
    ensures a * s <= b * s
  {
  }

  lemma FewBlocks(q: nat, s: nat, position: nat)
    requires q * s <= position < U64 && s >= DOGE_MIN_SUBSIDY
    ensures q < 20_000_000
  {
    if q >= 20_000_000 {
      Monotone(20_000_000, q, s);
    }
  }

  /** The start found in the table is not above the koinu, so a smaller offset cannot be the rest of a division. */
  lemma RestTooSmall(epoch: nat, position: nat, subsidy: nat, d: DecimalKoinu)
    requires position < d.offset
    ensures Spread(epoch, position, subsidy) != Some(d)
  {
    if subsidy > 0 { Quotient(position, subsidy); SmallRest(position, subsidy); }
  }

  lemma SmallRest(position: nat, subsidy: nat)
    requires subsidy > 0
    ensures position % subsidy <= position
  {
  }

  /** A koinu past the next start is found in a later block, whose decimals differ. */
  lemma FoundLater(t: Tables, d: DecimalKoinu, k: nat)
    requires Increasing(t) && d.height < WONKY_ERA_LEN && d.height < |t.starts| && k == t.starts[d.height] + d.offset < U64
    requires k > Last(t) || (d.height + 1 < |t.starts| && t.starts[d.height + 1] <= k)
    ensures Decimal(t, k) != Some(d)
  {
    hide EpochOf, BlockSubsidy, Increasing, StartingKoinu, Later, Spread, Search, StandardSubsidy;
    SizeOfTable(t);
    var e := EpochOf(t, k);
    if k > Last(t) {
      PastTable(t, k);
      EpochAtLeast(t, k, d.height) by { TableOrder(t, d.height, |t.starts| - 1); }
      LaterReward(t, e);
      LaterHeight(e, EpochPosition(t, k));
    } else {
      FoundInTable(t, k);
      EpochAtLeast(t, k, d.height + 1);
      TableOrder(t, d.height + 1, e);
      TableOrder(t, d.height, d.height + 1);
      DecimalIs(t, k, e);
      RestTooSmall(e, k - t.starts[e], BlockSubsidy(t, e), d);
    }
  }

  lemma LaterReward(t: Tables, h: nat)
    requires Increasing(t) && h >= WONKY_ERA_LEN
    ensures BlockSubsidy(t, h) == StandardSubsidy(h)
  {
  }

  lemma NotEnclosed(t: Tables, d: DecimalKoinu)
    requires Increasing(t) && d.height <= SEARCH_CAP && d.offset < BlockSubsidy(t, d.height)
    requires Begin(t, d.height) + BlockSubsidy(t, d.height) < U64
    requires !Encloses(t, d.height, Begin(t, d.height) + d.offset)
    ensures Decimal(t, Begin(t, d.height) + d.offset) != Some(d)
  {
    hide EpochOf, BlockSubsidy, Increasing, StartingKoinu, Later, Spread;
    var h, k := d.height, Begin(t, d.height) + d.offset;
    SizeOfTable(t);
    LaterStarts(t);
    if k == Last(t) {
      FoundInTable(t, k);
      var i := EpochOf(t, k);
      if i + 1 < |t.starts| { TableOrder(t, i + 1, |t.starts| - 1); }
      DecimalIs(t, k, i);
      FirstKoinu(i, BlockSubsidy(t, i));
      LaterGrows(t, WONKY_ERA_LEN, WONKY_ERA_LEN + 1);
    } else if h < WONKY_ERA_LEN {
      FoundLater(t, d, k);
    } else {
      LaterNext(t, h);
    }
  }

  // ------------------------------------------------------- the program's table

  /**
    The early blocks from 1182 to 1183: the table's step is ten koinu longer
    than the reward, and the first of those ten does not read back.
   */
  lemma StepTooLong(t: Tables)
    requires Increasing(t) && t.starts[1182] == 58929207200020000 && t.starts[1183] == 58985880100030010
    requires 1182 in t.subsidies && t.subsidies[1182] == 56672900010000
    ensures !ReadsBack(t, 58929207200020000 + 56672900010000)
  {
    hide ReadsBack, Increasing;
    SizeOfTable(t);
    TableOrder(t, 1183, |t.starts| - 1);
    ReadsBackIff(t, 58929207200020000 + 56672900010000, 1182);
  }

  /** The early blocks from 1448 to 1449: the step is shorter than the reward, and the last decimal of one block names the other. */
  lemma StepTooShort(t: Tables)
    requires Increasing(t) && t.starts[1448] == 72015607800030010 && t.starts[1449] == 72095104800030000
    requires 1448 in t.subsidies && t.subsidies[1448] == 79497000000000
    ensures var d := DecimalKoinu(1448, 79496999999999);
            FromDecimal(t, d) == Some(72095104800030009) && Decimal(t, 72095104800030009) != Some(d)
  {
    hide Decimal, Increasing;
    SizeOfTable(t);
    TableOrder(t, 1449, |t.starts| - 1);
    DecimalKeptIff(t, DecimalKoinu(1448, 79496999999999));
  }

  // ------------------------------------------------------ tables and rewards

  /** Everything paid before a block by the rewards, however large. */
  function Paid(t: Tables, height: nat): nat {
    if height == 0 then 0 else Paid(t, height - 1) + BlockSubsidy(t, height - 1)
  }

  /** Rewards of the early blocks only, none of them zero, whose sum fits 64 bits. */
  ghost predicate Rewards(t: Tables) {
    && (forall h :: h in t.subsidies ==> h < WONKY_ERA_LEN && t.subsidies[h] > 0)
    && Paid(t, WONKY_ERA_LEN) < U64
  }

  lemma {:induction false} PaidGrows(t: Tables, a: nat, b: nat)
    requires Rewards(t) && a <= b
    ensures Paid(t, a) <= Paid(t, b) && (a < b ==> Paid(t, a) < Paid(t, b))
    decreases b
  {
    if a < b { PaidGrows(t, a, b - 1); }
  }

  lemma {:induction false} PaidAfterEra(t: Tables, h: nat)
    requires Rewards(t) && h >= WONKY_ERA_LEN
    ensures Paid(t, h) == Paid(t, WONKY_ERA_LEN) + StandardSum(WONKY_ERA_LEN, h)
  {
    hide StandardSubsidy;
    if h == WONKY_ERA_LEN {
      NothingPaid(WONKY_ERA_LEN, h);
    } else {
      PaidAfterEra(t, h - 1);
    }
  }

  /** The starts of all blocks are what was paid before them exactly when the table has the running sums and the total at its end. */
  lemma StartsArePaidIff(t: Tables)
    requires Rewards(t) && 0 < |t.starts| <= WONKY_ERA_LEN + 1
    ensures (forall h: nat :: StartingKoinu(t, h) == Cap(Paid(t, h)))
            <==> |t.starts| == WONKY_ERA_LEN + 1 && forall i :: 0 <= i < |t.starts| ==> t.starts[i] == Paid(t, i)
  {
    hide StandardSum, Paid, Rewards, StartingKoinu;
    if forall h: nat :: StartingKoinu(t, h) == Cap(Paid(t, h)) {
      forall i | 0 <= i < |t.starts| ensures t.starts[i] == Paid(t, i) {
        PaidFits(t, i);
        assert StartingKoinu(t, i) == Cap(Paid(t, i));
        TableStart(t, i);
      }
      if |t.starts| <= WONKY_ERA_LEN {
        var n := |t.starts|;
        assert StartingKoinu(t, n) == Cap(Paid(t, n));
        StartAfterShortTable(t);
        PaidFits(t, n);
        PaidFits(t, n - 1);
        PaidGrows(t, n - 1, n);
      }
    }
    if |t.starts| == WONKY_ERA_LEN + 1 && forall i :: 0 <= i < |t.starts| ==> t.starts[i] == Paid(t, i) {
      forall h: nat ensures StartingKoinu(t, h) == Cap(Paid(t, h)) {
        if h < |t.starts| {
          PaidFits(t, h);
          TableStart(t, h);
        } else {
          PaidAfterEra(t, h);
          StartAfterTable(t, h);
        }
      }
    }
  }

  lemma PaidFits(t: Tables, i: nat)
    requires Rewards(t) && i <= WONKY_ERA_LEN
    ensures Cap(Paid(t, i)) == Paid(t, i)
  {
    PaidGrows(t, i, WONKY_ERA_LEN);
  }

  lemma TableStart(t: Tables, i: nat)
    requires i < |t.starts|
    ensures StartingKoinu(t, i) == t.starts[i]
  {
  }

  lemma StartAfterTable(t: Tables, h: nat)
    requires h >= |t.starts| > 0
    ensures StartingKoinu(t, h) == Cap(t.starts[|t.starts| - 1] + StandardSum(WONKY_ERA_LEN, h))
  {
    hide StandardSum;
    SaturatingSum(Last(t), StandardSum(WONKY_ERA_LEN, h));
  }

  lemma StartAfterShortTable(t: Tables)
    requires 0 < |t.starts| <= WONKY_ERA_LEN
    ensures StartingKoinu(t, |t.starts|) == Cap(t.starts[|t.starts| - 1])
  {
    NothingPaid(WONKY_ERA_LEN, |t.starts|);
    StartAfterTable(t, |t.starts|);
  }

  /** Each early block starts where the one before it ends. */
  ghost predicate Contiguous(t: Tables) {
    forall h: nat :: h < WONKY_ERA_LEN ==> StartingKoinu(t, h + 1) == StartingKoinu(t, h) + BlockSubsidy(t, h)
  }

  /** The early blocks follow each other exactly when the table has the total and each of its steps is the reward. */
  lemma ContiguousIff(t: Tables)
    requires 0 < |t.starts| <= WONKY_ERA_LEN + 1 && Last(t) < U64 && forall h :: h in t.subsidies ==> t.subsidies[h] > 0
    ensures Contiguous(t) <==>
              && |t.starts| == WONKY_ERA_LEN + 1
              && forall i :: 0 <= i < WONKY_ERA_LEN ==> t.starts[i + 1] == t.starts[i] + BlockSubsidy(t, i)
  {
    hide BlockSubsidy, StandardSum, StartingKoinu;
    if |t.starts| <= WONKY_ERA_LEN {
      var h := |t.starts| - 1;
      StartAfterShortTable(t);
      TableStart(t, h);
      SomethingPaid(t, h);
      assert StartingKoinu(t, h + 1) == StartingKoinu(t, h);
    } else {
      forall i | 0 <= i <= WONKY_ERA_LEN ensures StartingKoinu(t, i) == t.starts[i] { TableStart(t, i); }
    }
  }

  lemma SomethingPaid(t: Tables, h: nat)
    requires forall h :: h in t.subsidies ==> t.subsidies[h] > 0
    ensures BlockSubsidy(t, h) > 0
  {
  }

  /** With one start for each early block and no total, as the data file has it, two blocks claim the same koinu. */
  lemma TwoClaims(t: Tables, offset: nat)
    requires |t.starts| == WONKY_ERA_LEN && Last(t) < U64
    requires offset < BlockSubsidy(t, WONKY_ERA_LEN - 1) && offset < BlockSubsidy(t, WONKY_ERA_LEN)
    ensures FromDecimal(t, DecimalKoinu(WONKY_ERA_LEN - 1, offset)).Some?
    ensures FromDecimal(t, DecimalKoinu(WONKY_ERA_LEN - 1, offset)) == FromDecimal(t, DecimalKoinu(WONKY_ERA_LEN, offset))
  {
    hide BlockSubsidy, StandardSum;
    NothingPaid(WONKY_ERA_LEN, WONKY_ERA_LEN);
  }
}
