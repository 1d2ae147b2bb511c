/**
  Ordered delivery: reader threads take heights from a queue and send results
  over a channel; a dispatcher puts the results back in order and forwards them.
  Every interleaving of the threads is a run of this state machine.
 */
module Delivery {
  import opened Wrappers

  /** A result as a reader sends it: the block and its compact form, either of which may be missing. */
  datatype Reading = Reading(height: nat, block: Option<nat>, compacted: Option<nat>)

  /** What one run works on.  `read` is what the block files hold at a height. */
  datatype Config = Config(heights: seq<nat>, seqStart: nat, compress: bool, read: nat -> Option<nat>, compact: nat -> Option<nat>)
  {
    ghost predicate Valid() { heights != [] }

    /** The later of the height where sequencing starts and the first height listed. */
    function Start(): (start: nat)
      requires heights != []
      ensures start >= seqStart && start >= heights[0] && (start == seqStart || start == heights[0])
    {
      if seqStart >= heights[0] then seqStart else heights[0]
    }

    /** What a reader sends for a height; missing and unreadable blocks send an empty result. */
    function Produce(h: nat): Reading {
      match read(h)
      case None => Reading(h, None, None)
      case Some(block) =>
        Reading(h, if h >= seqStart then Some(block) else None, if compress then compact(block) else None)
    }

    /** The queue and the channel hold as many results as there are heights, but no more than 8000. */
    function Capacity(): (n: nat)
      ensures n <= |heights| && n <= 8000 && (n == |heights| || n == 8000)
    {
      if |heights| <= 8000 then |heights| else 8000
    }
  }

  const READER_THREADS: nat := 8

  datatype Reader = Idle | Busy(height: nat) | Finished

  /** Where the dispatcher is in its loop, with the batch it is filling. */
  datatype Phase =
    | Top
    | Receiving
    | Batching(compacted: seq<(nat, nat)>, blocks: seq<nat>)
    | Draining
    | Stopped

  datatype Command = ProcessBlocks(compacted: seq<(nat, nat)>, blocks: seq<nat>)

  datatype State = State(
    queue: seq<Option<nat>>,
    readers: seq<Reader>,
    channel: seq<Reading>,
    abort: bool,
    phase: Phase,
    inbox: map<nat, Reading>,
    cursor: nat,
    received: nat,
    output: seq<Command>,
    arrived: multiset<nat>)   // every height ever received, for the proof only

  // ---------------------------------------------------------------- start

  function Heights(hs: seq<nat>): seq<Option<nat>> {
    if hs == [] then [] else [Some(hs[0])] + Heights(hs[1..])
  }

  function Pills(n: nat): seq<Option<nat>> {
    if n == 0 then [] else [None] + Pills(n - 1)
  }

  /** Everything that is to be put into the work queue, in order. */
  function Items(c: Config): seq<Option<nat>> {
    Heights(c.heights) + Pills(READER_THREADS)
  }

  /** The queue takes the next item as long as it has room; no reader runs yet. */
  ghost predicate Loads(c: Config, queue: seq<Option<nat>>, next: seq<Option<nat>>) {
    |queue| < c.Capacity() && |queue| < |Items(c)| && next == queue + [Items(c)[|queue|]]
  }

  ghost predicate IsLoading(c: Config, queues: seq<seq<Option<nat>>>) {
    && queues != [] && queues[0] == []
    && forall k :: 0 <= k < |queues| - 1 ==> Loads(c, queues[k], queues[k + 1])
  }

  /** The state of a loaded queue. */
  ghost predicate Init(c: Config, s: State) {
    && c.Valid()
    && s == State(Items(c), seq(READER_THREADS, _ => Idle), [], false,
                  Top, map[], c.Start(), 0, [], multiset{})
  }

  // ---------------------------------------------------------------- steps

  /** A reader that sees the abort signal stops. */
  ghost predicate ReaderStops(c: Config, s: State, t: State, i: nat) {
    && i < |s.readers| && s.readers[i] == Idle && s.abort
    && t == s.(readers := s.readers[i := Finished])
  }

  /** A reader takes the next item of the queue; the signal may have been raised since it looked. */
  ghost predicate ReaderTakes(c: Config, s: State, t: State, i: nat) {
    && i < |s.readers| && s.readers[i] == Idle && s.queue != []
    && t == s.(queue := s.queue[1..],
               readers := s.readers[i := if s.queue[0] == None then Finished else Busy(s.queue[0].value)])
  }

  /** A reader sends its result as soon as the channel has room. */
  ghost predicate ReaderSends(c: Config, s: State, t: State, i: nat) {
    && i < |s.readers| && s.readers[i].Busy? && |s.channel| < c.Capacity()
    && t == s.(readers := s.readers[i := Idle], channel := s.channel + [c.Produce(s.readers[i].height)])
  }

  ghost predicate AbortRaised(c: Config, s: State, t: State) {
    t == s.(abort := true)
  }

  ghost predicate LoopTurns(c: Config, s: State, t: State) {
    s.phase.Top? && t == s.(phase := if s.abort then Stopped else Receiving)
  }

  /** One attempt to receive: a result, an empty channel, or no reader left to send. */
  ghost predicate Receives(c: Config, s: State, t: State) {
    && s.phase.Receiving?
    && if s.channel != [] then
         t == s.(channel := s.channel[1..], inbox := s.inbox[s.channel[0].height := s.channel[0]],
                 received := s.received + 1, arrived := s.arrived + multiset{s.channel[0].height})
       else
         t == s.(phase := Batching([], []),
                 received := if forall i :: 0 <= i < |s.readers| ==> s.readers[i].Finished? then |c.heights| else s.received)
  }

  function Compacted(r: Reading): seq<(nat, nat)> {
    if r.compacted.Some? then [(r.height, r.compacted.value)] else []
  }

  function Blocks(r: Reading): seq<nat> {
    if r.block.Some? then [r.block.value] else []
  }

  /** Moves the block at the cursor into the batch, or sends the batch off. */
  ghost predicate Forwards(c: Config, s: State, t: State) {
    && s.phase.Batching?
    && if s.cursor in s.inbox then
         var r := s.inbox[s.cursor];
         t == s.(phase := Batching(s.phase.compacted + Compacted(r), s.phase.blocks + Blocks(r)),
                 inbox := s.inbox - {s.cursor}, cursor := s.cursor + 1)
       else
         t == s.(phase := if s.received >= |c.heights| then Draining else Top,
                 output := s.output + Send(s.phase.compacted, s.phase.blocks))
  }

  function Send(compacted: seq<(nat, nat)>, blocks: seq<nat>): seq<Command> {
    if compacted == [] && blocks == [] then [] else [ProcessBlocks(compacted, blocks)]
  }

  /** The final drain sends one block at a time. */
  ghost predicate Drains(c: Config, s: State, t: State) {
    && s.phase.Draining?
    && if s.cursor in s.inbox then
         var r := s.inbox[s.cursor];
         t == s.(inbox := s.inbox - {s.cursor}, cursor := s.cursor + 1, output := s.output + Send(Compacted(r), Blocks(r)))
       else t == s.(phase := Stopped)
  }

  ghost predicate Step(c: Config, s: State, t: State) {
    || (exists i :: ReaderStops(c, s, t, i))
    || (exists i :: ReaderTakes(c, s, t, i))
    || (exists i :: ReaderSends(c, s, t, i))
    || AbortRaised(c, s, t)
    || LoopTurns(c, s, t)
    || Receives(c, s, t)
    || Forwards(c, s, t)
    || Drains(c, s, t)
  }

  ghost predicate IsRun(c: Config, run: seq<State>) {
    && run != [] && Init(c, run[0])
    && forall k :: 0 <= k < |run| - 1 ==> Step(c, run[k], run[k + 1])
  }

  // ------------------------------------------------------------ invariant

  function Waiting(item: Option<nat>): multiset<nat> {
    if item.Some? then multiset{item.value} else multiset{}
  }

  function Queued(queue: seq<Option<nat>>): multiset<nat> {
    if queue == [] then multiset{} else Waiting(queue[0]) + Queued(queue[1..])
  }

  function Holding(reader: Reader): multiset<nat> {
    if reader.Busy? then multiset{reader.height} else multiset{}
  }

  function InFlight(readers: seq<Reader>): multiset<nat> {
    if readers == [] then multiset{} else Holding(readers[0]) + InFlight(readers[1..])
  }

  function InChannel(channel: seq<Reading>): multiset<nat> {
    if channel == [] then multiset{} else multiset{channel[0].height} + InChannel(channel[1..])
  }

  /** Every height is waiting, being read, on its way, or has arrived. */
  ghost predicate Conserves(c: Config, s: State) {
    Queued(s.queue) + InFlight(s.readers) + InChannel(s.channel) + s.arrived == multiset(c.heights)
  }

  ghost predicate OnlyPills(queue: seq<Option<nat>>) {
    forall j :: 0 <= j < |queue| ==> queue[j] == None
  }

  ghost predicate AnyFinished(readers: seq<Reader>) {
    exists i :: 0 <= i < |readers| && readers[i].Finished?
  }

  ghost predicate AllFinished(readers: seq<Reader>) {
    forall i :: 0 <= i < |readers| ==> readers[i].Finished?
  }

  /** Stop markers come last, and without an abort a reader only finishes on one of them. */
  ghost predicate PillsLast(s: State) {
    && |s.readers| == READER_THREADS
    && (forall i, j :: 0 <= i < j < |s.queue| && s.queue[i] == None ==> s.queue[j] == None)
    && (!s.abort && AnyFinished(s.readers) ==> OnlyPills(s.queue))
  }

  /** Nothing on its way was changed since it was read. */
  ghost predicate Genuine(c: Config, s: State) {
    && (forall i :: 0 <= i < |s.channel| ==> s.channel[i] == c.Produce(s.channel[i].height))
    && (forall h :: h in s.inbox ==> s.inbox[h] == c.Produce(h))
  }

  /** What has arrived is in the inbox or was forwarded. */
  ghost predicate Arrivals(c: Config, s: State)
    requires c.Valid()
  {
    && c.Start() <= s.cursor
    && (forall h :: h in s.inbox ==> h in s.arrived)
    && (forall h :: h in s.arrived ==> h in s.inbox || c.Start() <= h < s.cursor)
    && (forall h :: c.Start() <= h < s.cursor ==> h in s.arrived)
  }

  /** A height that is listed once is not received again after it was forwarded. */
  ghost predicate NotTwice(c: Config, s: State)
    requires c.Valid()
  {
    forall h :: h in s.inbox && c.Start() <= h < s.cursor ==> s.arrived[h] >= 2
  }

  /** The counter says that everything has arrived only when it has. */
  ghost predicate Counts(c: Config, s: State) {
    && (s.received < |c.heights| ==> s.received == |s.arrived|)
    && (s.received >= |c.heights| && !s.abort ==> s.arrived == multiset(c.heights))
    && (s.phase.Draining? ==> s.received >= |c.heights|)
    && (s.phase.Stopped? && !s.abort ==> s.received >= |c.heights| && s.cursor !in s.inbox)
  }

  function AllCompacted(output: seq<Command>): seq<(nat, nat)> {
    if output == [] then [] else AllCompacted(output[..|output| - 1]) + output[|output| - 1].compacted
  }

  function AllBlocks(output: seq<Command>): seq<nat> {
    if output == [] then [] else AllBlocks(output[..|output| - 1]) + output[|output| - 1].blocks
  }

  /** What one thread would forward, reading the heights from `from` up to `end` one by one. */
  function SequentialCompacted(c: Config, from: nat, end: nat): seq<(nat, nat)>
    decreases end
  {
    if end <= from then [] else SequentialCompacted(c, from, end - 1) + Compacted(c.Produce(end - 1))
  }

  function SequentialBlocks(c: Config, from: nat, end: nat): seq<nat>
    decreases end
  {
    if end <= from then [] else SequentialBlocks(c, from, end - 1) + Blocks(c.Produce(end - 1))
  }

  /** What was sent, and what is in the batch, is what one thread would have sent so far. */
  ghost predicate InOrder(c: Config, s: State)
    requires c.Valid()
  {
    && AllCompacted(s.output) + (if s.phase.Batching? then s.phase.compacted else []) == SequentialCompacted(c, c.Start(), s.cursor)
    && AllBlocks(s.output) + (if s.phase.Batching? then s.phase.blocks else []) == SequentialBlocks(c, c.Start(), s.cursor)
  }

  ghost predicate Invariant(c: Config, s: State) {
    && c.Valid() && Conserves(c, s) && PillsLast(s) && Genuine(c, s)
    && Arrivals(c, s) && NotTwice(c, s) && Counts(c, s) && InOrder(c, s)
  }
}
