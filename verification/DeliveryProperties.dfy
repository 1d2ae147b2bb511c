/**
  What every run of the delivery pipeline keeps, and what it has delivered
  when it stops.
 */
module DeliveryProperties {
  import opened Wrappers
  import opened Sequences
  import opened Delivery

  // ------------------------------------------------------ counting heights

  /** Sums agree when they agree for each height. */
  lemma Swapped(a: multiset<nat>, b: multiset<nat>, x: multiset<nat>, d: multiset<nat>, y: multiset<nat>)
    requires b + x == d + y
    ensures (a + b) + x == (a + d) + y
  {
    forall h ensures ((a + b) + x)[h] == ((a + d) + y)[h] {
      assert (b + x)[h] == (d + y)[h];
    }
  }

  /** What leaves the first and third stores for the second keeps the total. */
  lemma Moved(q: multiset<nat>, f: multiset<nat>, k: multiset<nat>, r: multiset<nat>,
              q': multiset<nat>, f': multiset<nat>, x: multiset<nat>, k': multiset<nat>)
    requires q + k == q' + k' + x
    requires f' == f + x
    ensures q + f + k + r == q' + f' + k' + r
  {
    forall h ensures (q + f + k + r)[h] == (q' + f' + k' + r)[h] {
      assert (q + k)[h] == (q' + k' + x)[h];
    }
  }

  lemma InFlightSplit(readers: seq<Reader>)
    requires readers != []
    ensures InFlight(readers) == Holding(readers[0]) + InFlight(readers[1..])
  {
  }

  lemma {:induction false} InFlightUpdate(readers: seq<Reader>, i: nat, r: Reader)
    requires i < |readers|
    ensures InFlight(readers[i := r]) + Holding(readers[i]) == InFlight(readers) + Holding(r)
  {
    hide InFlight, Holding;
    var updated := readers[i := r];
    InFlightSplit(readers);
    InFlightSplit(updated);
    if i == 0 {
      assert updated[1..] == readers[1..];
    } else {
      assert updated[1..] == readers[1..][i - 1 := r];
      InFlightUpdate(readers[1..], i - 1, r);
      Swapped(Holding(readers[0]), InFlight(updated[1..]), Holding(readers[i]), InFlight(readers[1..]), Holding(r));
    }
  }

  lemma {:induction false} InChannelAppend(channel: seq<Reading>, r: Reading)
    ensures InChannel(channel + [r]) == InChannel(channel) + multiset{r.height}
  {
    if channel == [] {
      assert [r][1..] == [];
    } else {
      assert (channel + [r])[1..] == channel[1..] + [r];
      InChannelAppend(channel[1..], r);
    }
  }

  lemma {:induction false} NothingQueued(queue: seq<Option<nat>>)
    requires OnlyPills(queue)
    ensures Queued(queue) == multiset{}
  {
    if queue != [] {
      NothingQueued(queue[1..]);
    }
  }

  lemma {:induction false} NothingInFlight(readers: seq<Reader>)
    requires forall i :: 0 <= i < |readers| ==> !readers[i].Busy?
    ensures InFlight(readers) == multiset{}
  {
    if readers != [] {
      NothingInFlight(readers[1..]);
    }
  }

  lemma {:induction false} PillsAre(n: nat)
    ensures |Pills(n)| == n && OnlyPills(Pills(n))
  {
    if n > 0 { PillsAre(n - 1); }
  }

  lemma {:induction false} HeightsAre(hs: seq<nat>)
    ensures |Heights(hs)| == |hs| && forall i :: 0 <= i < |hs| ==> Heights(hs)[i] == Some(hs[i])
  {
    if hs != [] { HeightsAre(hs[1..]); }
  }

  lemma {:induction false} LoadedQueue(hs: seq<nat>, pills: seq<Option<nat>>)
    requires OnlyPills(pills)
    ensures Queued(Heights(hs) + pills) == multiset(hs)
  {
    if hs == [] {
      assert Heights(hs) + pills == pills;
      NothingQueued(pills);
    } else {
      assert (Heights(hs) + pills)[1..] == Heights(hs[1..]) + pills;
      assert hs == [hs[0]] + hs[1..];
      LoadedQueue(hs[1..], pills);
    }
  }

  lemma InitConserves(c: Config, s: State)
    requires Init(c, s)
    ensures Conserves(c, s)
  {
    hide Queued, InFlight, Pills, Heights;
    PillsAre(READER_THREADS);
    LoadedQueue(c.heights, Pills(READER_THREADS));
    NothingInFlight(s.readers);
  }

  lemma InitPillsLast(c: Config, s: State)
    requires Init(c, s)
    ensures PillsLast(s)
  {
    hide Pills, Heights;
    PillsAre(READER_THREADS);
    HeightsAre(c.heights);
  }

  lemma InitInvariant(c: Config, s: State)
    requires Init(c, s)
    ensures Invariant(c, s)
  {
    InitConserves(c, s);
    InitPillsLast(c, s);
    hide Conserves, PillsLast, Pills, Heights;
    assert |multiset(c.heights)| == |c.heights|;
  }

  // ------------------------------------------------- each step keeps it all

  lemma TakesKeepsConserves(c: Config, s: State, t: State, i: nat)
    requires Conserves(c, s) && ReaderTakes(c, s, t, i)
    ensures Conserves(c, t)
  {
    hide InFlight, InChannel;
    InFlightUpdate(s.readers, i, t.readers[i]);
    var x := Waiting(s.queue[0]);
    Moved(Queued(s.queue), InFlight(s.readers), InChannel(s.channel), s.arrived,
          Queued(t.queue), InFlight(t.readers), x, InChannel(s.channel));
  }

  lemma SendsKeepsConserves(c: Config, s: State, t: State, i: nat)
    requires Conserves(c, s) && ReaderSends(c, s, t, i)
    ensures Conserves(c, t)
  {
    hide InFlight, InChannel, Queued;
    InFlightUpdate(s.readers, i, t.readers[i]);
    InChannelAppend(s.channel, c.Produce(s.readers[i].height));
    var x := Holding(s.readers[i]);
    Moved(Queued(s.queue), InFlight(t.readers), InChannel(t.channel), s.arrived,
          Queued(s.queue), InFlight(s.readers), x, InChannel(s.channel));
  }

  lemma ReceivesKeepsConserves(c: Config, s: State, t: State)
    requires Conserves(c, s) && Receives(c, s, t)
    ensures Conserves(c, t)
  {
    hide InFlight, Queued;
  }

  lemma KeepsConserves(c: Config, s: State, t: State)
    requires Conserves(c, s) && Step(c, s, t)
    ensures Conserves(c, t)
  {
    hide Queued, InFlight, InChannel;
    if i: nat :| ReaderTakes(c, s, t, i) {
      TakesKeepsConserves(c, s, t, i);
    } else if i: nat :| ReaderSends(c, s, t, i) {
      SendsKeepsConserves(c, s, t, i);
    } else if i: nat :| ReaderStops(c, s, t, i) {
      InFlightUpdate(s.readers, i, t.readers[i]);
      assert InFlight(t.readers) + multiset{} == InFlight(t.readers);
      assert InFlight(s.readers) + multiset{} == InFlight(s.readers);
    } else if Receives(c, s, t) {
      ReceivesKeepsConserves(c, s, t);
    } else {
      assert t.queue == s.queue && t.readers == s.readers && t.channel == s.channel && t.arrived == s.arrived;
    }
  }

  lemma TakesKeepsPillsLast(c: Config, s: State, t: State, i: nat)
    requires PillsLast(s) && ReaderTakes(c, s, t, i)
    ensures PillsLast(t)
  {
    if !t.abort && AnyFinished(t.readers) {
      if s.queue[0] != None && !AnyFinished(s.readers) {
        assert false;
      }
      assert forall j :: 0 <= j < |t.queue| ==> t.queue[j] == s.queue[j + 1];
    }
  }

  lemma SendsKeepsPillsLast(c: Config, s: State, t: State, i: nat)
    requires PillsLast(s) && ReaderSends(c, s, t, i)
    ensures PillsLast(t)
  {
    if !t.abort && AnyFinished(t.readers) {
      var k :| 0 <= k < |t.readers| && t.readers[k].Finished?;
      assert k != i && s.readers[k].Finished?;
    }
  }

  lemma KeepsPillsLast(c: Config, s: State, t: State)
    requires PillsLast(s) && Step(c, s, t)
    ensures PillsLast(t)
  {
    hide AnyFinished, OnlyPills;
    if i: nat :| ReaderTakes(c, s, t, i) {
      TakesKeepsPillsLast(c, s, t, i);
    } else if i: nat :| ReaderSends(c, s, t, i) {
      SendsKeepsPillsLast(c, s, t, i);
    }
  }

  lemma SendsKeepsGenuine(c: Config, s: State, t: State, i: nat)
    requires Genuine(c, s) && ReaderSends(c, s, t, i)
    ensures Genuine(c, t)
  {
    assert forall k :: 0 <= k < |s.channel| ==> t.channel[k] == s.channel[k];
  }

  lemma ReceivesKeepsGenuine(c: Config, s: State, t: State)
    requires Genuine(c, s) && Receives(c, s, t)
    ensures Genuine(c, t)
  {
    hide AllFinished;
  }

  lemma KeepsGenuine(c: Config, s: State, t: State)
    requires Genuine(c, s) && Step(c, s, t)
    ensures Genuine(c, t)
  {
    hide Receives;
    if i: nat :| ReaderSends(c, s, t, i) {
      SendsKeepsGenuine(c, s, t, i);
    } else if Receives(c, s, t) {
      ReceivesKeepsGenuine(c, s, t);
    }
  }

  /** A step of a reader, an abort and a turn of the loop leave the dispatcher's own data alone. */
  predicate SameDispatch(s: State, t: State) {
    && t.inbox == s.inbox && t.cursor == s.cursor && t.received == s.received
    && t.output == s.output && t.arrived == s.arrived
    && (s.abort ==> t.abort)
    && (t.phase == s.phase || (s.phase.Top? && t.phase == if s.abort then Stopped else Receiving))
  }

  lemma OthersSameDispatch(c: Config, s: State, t: State)
    requires Step(c, s, t) && !Receives(c, s, t) && !Forwards(c, s, t) && !Drains(c, s, t)
    ensures SameDispatch(s, t)
  {
    hide Receives, Forwards, Drains;
  }

  lemma ReceivesKeepsArrivals(c: Config, s: State, t: State)
    requires c.Valid() && Arrivals(c, s) && NotTwice(c, s) && Receives(c, s, t)
    ensures Arrivals(c, t) && NotTwice(c, t)
  {
    hide AllFinished;
  }

  /** Moving the block at the cursor out of the inbox, alone. */
  lemma CursorKeepsArrivals(c: Config, s: State, t: State)
    requires c.Valid() && Arrivals(c, s) && NotTwice(c, s) && t.arrived == s.arrived
    requires s.cursor in s.inbox && t.inbox == s.inbox - {s.cursor} && t.cursor == s.cursor + 1
    ensures Arrivals(c, t) && NotTwice(c, t)
  {
  }

  lemma KeepsArrivals(c: Config, s: State, t: State)
    requires c.Valid() && Arrivals(c, s) && NotTwice(c, s) && Step(c, s, t)
    ensures Arrivals(c, t) && NotTwice(c, t)
  {
    hide Step, Receives;
    if Receives(c, s, t) {
      ReceivesKeepsArrivals(c, s, t);
    } else if Forwards(c, s, t) || Drains(c, s, t) {
      if s.cursor in s.inbox { CursorKeepsArrivals(c, s, t); }
    } else {
      OthersSameDispatch(c, s, t);
    }
  }

  /** Once every reader is done and the channel is empty, everything has arrived. */
  lemma NothingOutstanding(c: Config, s: State)
    requires Conserves(c, s) && PillsLast(s) && !s.abort
    requires s.channel == [] && AllFinished(s.readers)
    ensures s.arrived == multiset(c.heights)
  {
    assert s.readers[0].Finished?;
    NothingQueued(s.queue);
    NothingInFlight(s.readers);
  }

  lemma {:induction false} WholeSubset(part: multiset<nat>, whole: multiset<nat>)
    requires part <= whole && |part| >= |whole|
    ensures part == whole
  {
    assert whole == part + (whole - part);
  }

  lemma ReceivesKeepsCounts(c: Config, s: State, t: State)
    requires Conserves(c, s) && Conserves(c, t) && PillsLast(s) && Counts(c, s) && Receives(c, s, t)
    ensures Counts(c, t)
  {
    if s.channel == [] {
      if AllFinished(s.readers) && !s.abort { NothingOutstanding(c, s); }
    } else {
      assert |t.arrived| == |s.arrived| + 1;
      if t.received >= |c.heights| && !t.abort {
        if s.received < |c.heights| {
          WholeSubset(t.arrived, multiset(c.heights));
        } else {
          assert false;
        }
      }
    }
  }

  lemma KeepsCounts(c: Config, s: State, t: State)
    requires Conserves(c, s) && Conserves(c, t) && PillsLast(s) && Counts(c, s) && Step(c, s, t)
    ensures Counts(c, t)
  {
    hide Step, Conserves, PillsLast;
    if Receives(c, s, t) {
      ReceivesKeepsCounts(c, s, t);
    } else if Forwards(c, s, t) {
    } else if Drains(c, s, t) {
    } else {
      OthersSameDispatch(c, s, t);
    }
  }

  lemma SendAppends(output: seq<Command>, compacted: seq<(nat, nat)>, blocks: seq<nat>)
    ensures AllCompacted(output + Send(compacted, blocks)) == AllCompacted(output) + compacted
    ensures AllBlocks(output + Send(compacted, blocks)) == AllBlocks(output) + blocks
  {
    var sent := output + Send(compacted, blocks);
    if compacted == [] && blocks == [] {
      assert sent == output;
    } else {
      assert sent[..|sent| - 1] == output;
    }
  }

  lemma KeepsInOrder(c: Config, s: State, t: State)
    requires c.Valid() && Genuine(c, s) && InOrder(c, s) && c.Start() <= s.cursor && Step(c, s, t)
    ensures InOrder(c, t)
  {
    hide Step, AllCompacted, AllBlocks;
    if Receives(c, s, t) {
      hide SequentialCompacted, SequentialBlocks;
      assert !s.phase.Batching? && (t.phase.Batching? ==> t.phase == Batching([], []));
    } else if Forwards(c, s, t) {
      if s.cursor in s.inbox {
        var r := s.inbox[s.cursor];
        Assoc(AllCompacted(s.output), s.phase.compacted, Compacted(r));
        Assoc(AllBlocks(s.output), s.phase.blocks, Blocks(r));
      } else {
        hide SequentialCompacted, SequentialBlocks;
        SendAppends(s.output, s.phase.compacted, s.phase.blocks);
      }
    } else if Drains(c, s, t) {
      if s.cursor in s.inbox {
        var r := s.inbox[s.cursor];
        SendAppends(s.output, Compacted(r), Blocks(r));
      }
    } else {
      hide SequentialCompacted, SequentialBlocks;
      OthersSameDispatch(c, s, t);
    }
  }

  lemma KeepsInvariant(c: Config, s: State, t: State)
    requires Invariant(c, s) && Step(c, s, t)
    ensures Invariant(c, t)
  {
    hide Step, Conserves, PillsLast, Genuine, NotTwice, Counts, InOrder;
    KeepsConserves(c, s, t);
    KeepsPillsLast(c, s, t);
    KeepsGenuine(c, s, t);
    KeepsArrivals(c, s, t);
    KeepsCounts(c, s, t);
    KeepsInOrder(c, s, t);
  }

  lemma {:induction false} RunKeepsInvariant(c: Config, run: seq<State>, k: nat)
    requires IsRun(c, run) && k < |run|
    ensures Invariant(c, run[k])
  {
    hide Init, Step, Invariant;
    if k == 0 {
      InitInvariant(c, run[0]);
    } else {
      RunKeepsInvariant(c, run, k - 1);
      KeepsInvariant(c, run[k - 1], run[k]);
    }
  }

  // ---------------------------------------------------------- what it means

  /** The heights from `from` up to `end`. */
  function Passed(from: nat, end: nat): (passed: set<nat>)
    ensures forall h: nat :: h in passed <==> from <= h < end
    decreases end
  {
    if end <= from then {} else Passed(from, end - 1) + {end - 1}
  }

  lemma {:induction false} DistinctCounts(hs: seq<nat>, h: nat)
    requires Distinct(hs)
    ensures multiset(hs)[h] <= 1
  {
    if hs != [] {
      assert hs == [hs[0]] + hs[1..];
      DistinctCounts(hs[1..], h);
      if h == hs[0] && h in multiset(hs[1..]) {
        assert false;
      }
    }
  }

  /**
    With distinct heights, every height is at every moment in exactly one of
    the queue, a reader, the channel, the inbox and what was forwarded.
   */
  lemma EachHeightInOnePlace(c: Config, run: seq<State>, k: nat)
    requires IsRun(c, run) && k < |run| && Distinct(c.heights)
    ensures c.Valid()
    ensures var s := run[k];
            Queued(s.queue) + InFlight(s.readers) + InChannel(s.channel) + multiset(s.inbox.Keys) + multiset(Passed(c.Start(), s.cursor))
              == multiset(c.heights)
  {
    RunKeepsInvariant(c, run, k);
    hide IsRun, Queued, InFlight, InChannel, Genuine, PillsLast, Counts, InOrder;
    var s := run[k];
    forall h: nat ensures s.arrived[h] == (multiset(s.inbox.Keys) + multiset(Passed(c.Start(), s.cursor)))[h] {
      DistinctCounts(c.heights, h);
      assert (Queued(s.queue) + InFlight(s.readers) + InChannel(s.channel) + s.arrived)[h] <= 1;
    }
    assert s.arrived == multiset(s.inbox.Keys) + multiset(Passed(c.Start(), s.cursor));
  }

  /** At every moment, aborted or not, what was sent is what one thread would have sent up to the cursor. */
  lemma SendsInOrder(c: Config, run: seq<State>, k: nat)
    requires IsRun(c, run) && k < |run| && !run[k].phase.Batching?
    ensures c.Valid()
    ensures AllCompacted(run[k].output) == SequentialCompacted(c, c.Start(), run[k].cursor)
    ensures AllBlocks(run[k].output) == SequentialBlocks(c, c.Start(), run[k].cursor)
  {
    RunKeepsInvariant(c, run, k);
    hide IsRun, AllCompacted, AllBlocks, SequentialCompacted, SequentialBlocks;
  }

  lemma {:induction false} SequentialMember(c: Config, from: nat, end: nat, h: nat, bytes: nat)
    ensures (h, bytes) in SequentialCompacted(c, from, end) <==>
            from <= h < end && c.compress && c.read(h).Some? && c.compact(c.read(h).value) == Some(bytes)
    decreases end
  {
    if from < end { SequentialMember(c, from, end - 1, h, bytes); }
  }

  predicate Ascending(s: seq<(nat, nat)>) {
    forall i, j :: 0 <= i < j < |s| ==> s[i].0 < s[j].0
  }

  lemma AscendingAppend(s: seq<(nat, nat)>, x: (nat, nat))
    requires Ascending(s) && forall y :: y in s ==> y.0 < x.0
    ensures Ascending(s + [x])
  {
  }

  /** The compact blocks go out in ascending order of height, none of them twice. */
  lemma {:induction false} SequentialAscends(c: Config, from: nat, end: nat)
    ensures Ascending(SequentialCompacted(c, from, end))
    decreases end
  {
    if from < end {
      SequentialAscends(c, from, end - 1);
      var s, last := SequentialCompacted(c, from, end - 1), Compacted(c.Produce(end - 1));
      if last != [] {
        forall y | y in s ensures y.0 < end - 1 {
          SequentialMember(c, from, end - 1, y.0, y.1);
        }
        AscendingAppend(s, last[0]);
      } else {
        assert s + last == s;
      }
    }
  }

  /** The batches of every run list the compact blocks by ascending height: those read below the cursor and no others. */
  lemma CompactedAscends(c: Config, run: seq<State>, k: nat)
    requires IsRun(c, run) && k < |run| && !run[k].phase.Batching?
    ensures c.Valid()
    ensures Ascending(AllCompacted(run[k].output))
    ensures forall h: nat, bytes: nat :: (h, bytes) in AllCompacted(run[k].output) <==>
              c.Start() <= h < run[k].cursor && c.compress && c.read(h).Some? && c.compact(c.read(h).value) == Some(bytes)
  {
    hide IsRun, AllCompacted, SequentialCompacted;
    SendsInOrder(c, run, k);
    SequentialAscends(c, c.Start(), run[k].cursor);
    forall h: nat, bytes: nat
      ensures (h, bytes) in AllCompacted(run[k].output) <==>
              c.Start() <= h < run[k].cursor && c.compress && c.read(h).Some? && c.compact(c.read(h).value) == Some(bytes)
    {
      SequentialMember(c, c.Start(), run[k].cursor, h, bytes);
    }
  }

  /** The blocks are those at the given ascending heights: the readable ones of the range, each once. */
  ghost predicate Delivers(c: Config, blocks: seq<nat>, from: nat, end: nat, hs: seq<nat>) {
    && |hs| == |blocks|
    && (forall i, j :: 0 <= i < j < |hs| ==> hs[i] < hs[j])
    && (forall i :: 0 <= i < |hs| ==> c.read(hs[i]) == Some(blocks[i]))
    && (forall h: nat :: h in hs <==> from <= h < end && c.read(h).Some?)
  }

  lemma DeliversOneMore(c: Config, blocks: seq<nat>, from: nat, end: nat, hs: seq<nat>) returns (more: seq<nat>)
    requires Delivers(c, blocks, from, end, hs) && c.seqStart <= from <= end
    ensures Delivers(c, blocks + Blocks(c.Produce(end)), from, end + 1, more)
  {
    if c.read(end).Some? {
      more := hs + [end];
      assert forall i :: 0 <= i < |hs| ==> hs[i] in hs;
      assert forall h: nat :: h in more <==> h in hs || h == end;
    } else {
      more := hs;
      assert blocks + Blocks(c.Produce(end)) == blocks;
    }
  }

  lemma NothingDelivered(c: Config, from: nat, end: nat)
    requires end <= from
    ensures SequentialBlocks(c, from, end) == [] && Delivers(c, [], from, end, [])
  {
  }

  lemma SequentialMore(c: Config, from: nat, end: nat)
    requires from < end
    ensures SequentialBlocks(c, from, end) == SequentialBlocks(c, from, end - 1) + Blocks(c.Produce(end - 1))
  {
  }

  lemma {:induction false} SequentialDelivers(c: Config, from: nat, end: nat) returns (hs: seq<nat>)
    requires c.seqStart <= from
    ensures Delivers(c, SequentialBlocks(c, from, end), from, end, hs)
    decreases end
  {
    hide *;
    if from < end {
      var before := SequentialDelivers(c, from, end - 1);
      SequentialMore(c, from, end);
      hs := DeliversOneMore(c, SequentialBlocks(c, from, end - 1), from, end - 1, before);
    } else {
      hs := [];
      NothingDelivered(c, from, end);
    }
  }

  /**
    At every moment outside a batch, aborted or not: the blocks sent are those
    that can be read at the heights from the start up to the cursor, in
    ascending order and each once.
   */
  lemma BlocksDelivered(c: Config, run: seq<State>, k: nat) returns (hs: seq<nat>)
    requires IsRun(c, run) && k < |run| && !run[k].phase.Batching?
    ensures c.Valid()
    ensures Delivers(c, AllBlocks(run[k].output), c.Start(), run[k].cursor, hs)
  {
    hide IsRun, AllBlocks, SequentialBlocks, Delivers;
    SendsInOrder(c, run, k);
    hs := SequentialDelivers(c, c.Start(), run[k].cursor);
  }

  /**
    When the dispatcher stops without an abort, the cursor is at the first
    height from the start that was not listed, and what was listed beyond it
    (or below the start) is still in the inbox.
   */
  lemma StopsAtFirstGap(c: Config, run: seq<State>)
    requires IsRun(c, run) && run[|run| - 1].phase.Stopped? && !run[|run| - 1].abort
    ensures c.Valid()
    ensures var s := run[|run| - 1];
            && c.Start() <= s.cursor
            && (forall h: nat :: c.Start() <= h < s.cursor ==> h in c.heights)
            && s.cursor !in c.heights
            && (forall h: nat :: h in c.heights && !(c.Start() <= h < s.cursor) ==> h in s.inbox)
  {
    var s := run[|run| - 1];
    RunKeepsInvariant(c, run, |run| - 1);
    hide IsRun, Conserves, PillsLast, Genuine, NotTwice, InOrder;
    assert forall h: nat :: h in c.heights <==> h in s.arrived;
  }

  /** Every listed height from the start on is forwarded exactly when the listed heights have no gap after the start. */
  lemma ForwardsAllIff(c: Config, run: seq<State>)
    requires IsRun(c, run) && run[|run| - 1].phase.Stopped? && !run[|run| - 1].abort
    ensures c.Valid()
    ensures (forall h: nat :: h in c.heights && c.Start() <= h ==> h < run[|run| - 1].cursor) <==>
            (forall h: nat, g: nat :: h in c.heights && c.Start() <= g <= h ==> g in c.heights)
  {
    assert run != [];
    hide IsRun;
    StopsAtFirstGap(c, run);
    var s := run[|run| - 1];
    if h: nat :| h in c.heights && c.Start() <= h && s.cursor <= h {
      assert c.Start() <= s.cursor <= h && s.cursor !in c.heights;
    }
  }

  /** For a list of consecutive heights, the cursor ends just past the last one, or at the start when that is higher. */
  lemma ContiguousDelivery(c: Config, run: seq<State>) returns (hs: seq<nat>)
    requires IsRun(c, run) && run[|run| - 1].phase.Stopped? && !run[|run| - 1].abort
    requires forall i :: 0 <= i < |c.heights| ==> c.heights[i] == c.heights[0] + i
    ensures c.Valid()
    ensures var s := run[|run| - 1];
            var end := if c.heights[|c.heights| - 1] + 1 >= c.Start() then c.heights[|c.heights| - 1] + 1 else c.Start();
            && s.cursor == end
            && AllCompacted(s.output) == SequentialCompacted(c, c.Start(), end)
            && Delivers(c, AllBlocks(s.output), c.Start(), end, hs)
  {
    assert run != [];
    hide IsRun, AllCompacted, AllBlocks, SequentialCompacted, SequentialBlocks, Delivers;
    StopsAtFirstGap(c, run);
    SendsInOrder(c, run, |run| - 1);
    hs := BlocksDelivered(c, run, |run| - 1);
    var cursor := run[|run| - 1].cursor;
    forall h: nat | c.heights[0] <= h <= c.heights[|c.heights| - 1] ensures h in c.heights {
      assert c.heights[h - c.heights[0]] == h;
    }
    if cursor > c.Start() {
      assert cursor - 1 in c.heights;
    }
  }
}
