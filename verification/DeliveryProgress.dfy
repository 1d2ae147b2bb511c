/**
  From a loaded queue, and as long as nobody aborts, every reachable state of
  the pipeline can still come to an end.  Loading the queue never ends.
 */
module DeliveryProgress {
  import opened Wrappers
  import opened Delivery
  import opened DeliveryProperties

  // ------------------------------------------- one stop marker per reader

  function PillCount(queue: seq<Option<nat>>): nat {
    if queue == [] then 0 else (if queue[0] == None then 1 else 0) + PillCount(queue[1..])
  }

  function Active(reader: Reader): nat {
    if reader.Finished? then 0 else 1
  }

  function ActiveCount(readers: seq<Reader>): nat {
    if readers == [] then 0 else Active(readers[0]) + ActiveCount(readers[1..])
  }

  /** Without an abort there is a stop marker in the queue for every reader that is not done. */
  ghost predicate PillsMatch(s: State) {
    !s.abort ==> PillCount(s.queue) == ActiveCount(s.readers)
  }

  lemma {:induction false} ActiveUpdate(readers: seq<Reader>, i: nat, r: Reader)
    requires i < |readers|
    ensures ActiveCount(readers[i := r]) + Active(readers[i]) == ActiveCount(readers) + Active(r)
  {
    if i == 0 {
      assert readers[0 := r][1..] == readers[1..];
    } else {
      assert readers[i := r][1..] == readers[1..][i - 1 := r];
      ActiveUpdate(readers[1..], i - 1, r);
    }
  }

  lemma {:induction false} LoadedPills(hs: seq<nat>, n: nat)
    ensures PillCount(Heights(hs) + Pills(n)) == n
  {
    if hs == [] {
      assert Heights(hs) + Pills(n) == Pills(n);
      if n > 0 {
        LoadedPills(hs, n - 1);
        assert Heights(hs) + Pills(n - 1) == Pills(n - 1);
      }
    } else {
      assert (Heights(hs) + Pills(n))[1..] == Heights(hs[1..]) + Pills(n);
      LoadedPills(hs[1..], n);
    }
  }

  lemma {:induction false} AllActive(readers: seq<Reader>)
    requires forall i :: 0 <= i < |readers| ==> readers[i] == Idle
    ensures ActiveCount(readers) == |readers|
  {
    if readers != [] { AllActive(readers[1..]); }
  }

  lemma InitPillsMatch(c: Config, s: State)
    requires Init(c, s)
    ensures PillsMatch(s)
  {
    hide Heights, Pills;
    LoadedPills(c.heights, READER_THREADS);
    AllActive(s.readers);
  }

  lemma KeepsPillsMatch(c: Config, s: State, t: State)
    requires PillsMatch(s) && Step(c, s, t)
    ensures PillsMatch(t)
  {
    hide ActiveCount;
    if i: nat :| ReaderTakes(c, s, t, i) {
      ActiveUpdate(s.readers, i, t.readers[i]);
    } else if i: nat :| ReaderSends(c, s, t, i) {
      ActiveUpdate(s.readers, i, t.readers[i]);
    }
  }

  lemma {:induction false} RunKeepsPillsMatch(c: Config, run: seq<State>, k: nat)
    requires IsRun(c, run) && k < |run|
    ensures PillsMatch(run[k])
  {
    hide Init, Step, PillsMatch;
    if k == 0 {
      InitPillsMatch(c, run[0]);
    } else {
      RunKeepsPillsMatch(c, run, k - 1);
      KeepsPillsMatch(c, run[k - 1], run[k]);
    }
  }

  lemma {:induction false} SomeoneActive(readers: seq<Reader>, i: nat)
    requires i < |readers| && !readers[i].Finished?
    ensures ActiveCount(readers) > 0
  {
    if i > 0 { SomeoneActive(readers[1..], i - 1); }
  }

  // ------------------------------------------------------------ the measure

  /** The moves that heights and stop markers still have before them. */
  function Work(s: State): nat {
    3 * |s.queue| + 2 * |InFlight(s.readers)| + |s.channel|
  }

  /** How far the dispatcher is from its end. */
  function Stage(c: Config, s: State): nat {
    match s.phase
    case Top => 5
    case Receiving => 4
    case Batching(_, _) => if s.received < |c.heights| then 6 else 3
    case Draining => 2
    case Stopped => 0
  }

  ghost predicate Closer(c: Config, s: State, t: State) {
    || Work(t) < Work(s)
    || (Work(t) == Work(s) && Stage(c, t) < Stage(c, s))
    || (Work(t) == Work(s) && Stage(c, t) == Stage(c, s) && |t.inbox| < |s.inbox|)
  }

  lemma TakeCloser(c: Config, s: State, i: nat) returns (t: State)
    requires i < |s.readers| && s.readers[i] == Idle && s.queue != []
    ensures Step(c, s, t) && t.abort == s.abort && Closer(c, s, t)
  {
    var r := if s.queue[0] == None then Finished else Busy(s.queue[0].value);
    t := s.(queue := s.queue[1..], readers := s.readers[i := r]);
    assert ReaderTakes(c, s, t, i);
    InFlightUpdate(s.readers, i, r);
    assert |InFlight(t.readers) + Holding(Idle)| == |InFlight(s.readers) + Holding(r)|;
  }

  lemma SendCloser(c: Config, s: State, i: nat) returns (t: State)
    requires i < |s.readers| && s.readers[i].Busy? && |s.channel| < c.Capacity()
    ensures Step(c, s, t) && t.abort == s.abort && Closer(c, s, t)
  {
    t := s.(readers := s.readers[i := Idle], channel := s.channel + [c.Produce(s.readers[i].height)]);
    assert ReaderSends(c, s, t, i);
    InFlightUpdate(s.readers, i, Idle);
    assert |InFlight(t.readers) + Holding(s.readers[i])| == |InFlight(s.readers) + Holding(Idle)|;
  }

  lemma ReceiveCloser(c: Config, s: State) returns (t: State)
    requires s.phase.Receiving? && (s.channel != [] || AllFinished(s.readers))
    ensures Step(c, s, t) && t.abort == s.abort && Closer(c, s, t)
  {
    if s.channel != [] {
      t := s.(channel := s.channel[1..], inbox := s.inbox[s.channel[0].height := s.channel[0]],
              received := s.received + 1, arrived := s.arrived + multiset{s.channel[0].height});
    } else {
      t := s.(phase := Batching([], []), received := |c.heights|);
    }
    assert Receives(c, s, t);
  }

  lemma RemoveOne(m: map<nat, Reading>, k: nat)
    requires k in m
    ensures |m - {k}| < |m|
  {
    assert (m - {k}).Keys == m.Keys - {k};
    assert |(m - {k}).Keys| == |m - {k}| && |m.Keys| == |m|;
  }

  lemma BatchCloser(c: Config, s: State) returns (t: State)
    requires s.phase.Batching?
    ensures Step(c, s, t) && t.abort == s.abort && Closer(c, s, t)
  {
    if s.cursor in s.inbox {
      var r := s.inbox[s.cursor];
      t := s.(phase := Batching(s.phase.compacted + Compacted(r), s.phase.blocks + Blocks(r)),
              inbox := s.inbox - {s.cursor}, cursor := s.cursor + 1);
      RemoveOne(s.inbox, s.cursor);
    } else {
      t := s.(phase := if s.received >= |c.heights| then Draining else Top,
              output := s.output + Send(s.phase.compacted, s.phase.blocks));
    }
    assert Forwards(c, s, t);
  }

  lemma DrainCloser(c: Config, s: State) returns (t: State)
    requires s.phase.Draining?
    ensures Step(c, s, t) && t.abort == s.abort && Closer(c, s, t)
  {
    if s.cursor in s.inbox {
      var r := s.inbox[s.cursor];
      t := s.(inbox := s.inbox - {s.cursor}, cursor := s.cursor + 1, output := s.output + Send(Compacted(r), Blocks(r)));
      RemoveOne(s.inbox, s.cursor);
    } else {
      t := s.(phase := Stopped);
    }
    assert Drains(c, s, t);
  }

  lemma TurnCloser(c: Config, s: State) returns (t: State)
    requires s.phase.Top? && !s.abort
    ensures Step(c, s, t) && !t.abort && Closer(c, s, t)
  {
    t := s.(phase := Receiving);
    assert LoopTurns(c, s, t);
  }

  /** No state is stuck: some thread can always bring the end closer. */
  lemma OneStepCloser(c: Config, s: State) returns (t: State)
    requires c.Valid() && PillsMatch(s) && !s.abort && !s.phase.Stopped?
    ensures Step(c, s, t) && !t.abort && Closer(c, s, t)
  {
    hide Step, Closer;
    if s.phase.Top? {
      t := TurnCloser(c, s);
    } else if s.phase.Batching? {
      t := BatchCloser(c, s);
    } else if s.phase.Draining? {
      t := DrainCloser(c, s);
    } else if s.channel != [] || AllFinished(s.readers) {
      t := ReceiveCloser(c, s);
    } else if i :| 0 <= i < |s.readers| && s.readers[i].Busy? {
      t := SendCloser(c, s, i);
    } else {
      var i :| 0 <= i < |s.readers| && !s.readers[i].Finished?;
      SomeoneActive(s.readers, i);
      t := TakeCloser(c, s, i);
    }
  }

  /** Steps from one state to another. */
  ghost predicate Leads(c: Config, path: seq<State>) {
    path != [] && forall k :: 0 <= k < |path| - 1 ==> Step(c, path[k], path[k + 1])
  }

  lemma {:induction false} Finishes(c: Config, s: State) returns (path: seq<State>)
    requires c.Valid() && PillsMatch(s) && !s.abort
    ensures Leads(c, path) && path[0] == s
    ensures path[|path| - 1].phase.Stopped? && !path[|path| - 1].abort
    decreases Work(s), Stage(c, s), |s.inbox|
  {
    hide Step, Work, Stage, PillsMatch;
    if s.phase.Stopped? {
      path := [s];
    } else {
      var t := OneStepCloser(c, s);
      KeepsPillsMatch(c, s, t);
      var rest := Finishes(c, t);
      path := [s] + rest;
      forall k | 0 <= k < |path| - 1 ensures Step(c, path[k], path[k + 1]) {
        if k > 0 { assert path[k] == rest[k - 1] && path[k + 1] == rest[k]; }
      }
    }
  }

  ghost predicate StopsWhole(run: seq<State>) {
    run != [] && run[|run| - 1].phase.Stopped? && !run[|run| - 1].abort
  }

  /** From a loaded queue, every run without an abort can be continued to one that stops without an abort. */
  lemma CanAlwaysStop(c: Config, run: seq<State>)
    requires IsRun(c, run) && !run[|run| - 1].abort
    ensures exists more: seq<State> :: IsRun(c, run + more) && StopsWhole(run + more)
  {
    hide Init, Step, PillsMatch;
    var n := |run| - 1;
    RunKeepsPillsMatch(c, run, n);
    assert c.Valid() by { RunKeepsInvariant(c, run, n); }
    var path := Finishes(c, run[n]);
    var more := path[1..];
    var whole := run + more;
    forall k | 0 <= k < |whole| - 1 ensures Step(c, whole[k], whole[k + 1]) {
      if k >= n {
        assert whole[k] == path[k - n] && whole[k + 1] == path[k - n + 1];
      }
    }
    assert whole[|whole| - 1] == path[|path| - 1];
    assert IsRun(c, run + more);
  }

  // ------------------------------------------- only idle turns cost no work

  /** A reader takes or sends, the dispatcher receives, or it passes a block on. */
  ghost predicate Productive(c: Config, s: State, t: State) {
    || (exists i :: ReaderTakes(c, s, t, i))
    || (exists i :: ReaderSends(c, s, t, i))
    || (Receives(c, s, t) && s.channel != [])
    || (Forwards(c, s, t) && s.cursor in s.inbox)
    || (Drains(c, s, t) && s.cursor in s.inbox)
  }

  /** Every move still to be made, and every block still to be passed on. */
  function Load(s: State): nat {
    2 * Work(s) + |s.inbox|
  }

  lemma AddOne(m: map<nat, Reading>, k: nat, r: Reading)
    ensures |m[k := r]| <= |m| + 1
  {
    assert m[k := r].Keys == m.Keys + {k};
    assert |m[k := r].Keys| == |m[k := r]| && |m.Keys| == |m|;
  }

  lemma TakeLightens(c: Config, s: State, t: State, i: nat)
    requires ReaderTakes(c, s, t, i)
    ensures Work(t) < Work(s) && t.inbox == s.inbox
  {
    InFlightUpdate(s.readers, i, t.readers[i]);
    assert |InFlight(t.readers) + Holding(Idle)| == |InFlight(s.readers) + Holding(t.readers[i])|;
  }

  lemma SendLightens(c: Config, s: State, t: State, i: nat)
    requires ReaderSends(c, s, t, i)
    ensures Work(t) < Work(s) && t.inbox == s.inbox
  {
    InFlightUpdate(s.readers, i, Idle);
    assert |InFlight(t.readers) + Holding(s.readers[i])| == |InFlight(s.readers) + Holding(Idle)|;
  }

  /** Whatever is on its way, has arrived or was passed on stays where it is. */
  ghost predicate Idles(s: State, t: State) {
    && Load(t) == Load(s) && t.queue == s.queue && t.channel == s.channel && t.inbox == s.inbox
    && t.cursor == s.cursor && t.arrived == s.arrived
  }

  lemma StopIdles(c: Config, s: State, t: State, i: nat)
    requires ReaderStops(c, s, t, i)
    ensures Idles(s, t)
  {
    InFlightUpdate(s.readers, i, Finished);
    assert |InFlight(t.readers) + Holding(Idle)| == |InFlight(s.readers) + Holding(Finished)|;
  }

  lemma DispatcherLightens(c: Config, s: State, t: State)
    requires Receives(c, s, t) || Forwards(c, s, t) || Drains(c, s, t)
    ensures (if s.phase.Receiving? then s.channel != [] else s.cursor in s.inbox) ==> Load(t) < Load(s)
    ensures !(if s.phase.Receiving? then s.channel != [] else s.cursor in s.inbox) ==> Idles(s, t)
  {
    hide InFlight;
    if s.phase.Receiving? && s.channel != [] {
      AddOne(s.inbox, s.channel[0].height, s.channel[0]);
    } else if !s.phase.Receiving? && s.cursor in s.inbox {
      RemoveOne(s.inbox, s.cursor);
    }
  }

  /** A productive step lightens the load; any other leaves everything on its way where it was. */
  lemma StepLightens(c: Config, s: State, t: State)
    requires Step(c, s, t)
    ensures Productive(c, s, t) ==> Load(t) < Load(s)
    ensures !Productive(c, s, t) ==> Idles(s, t)
  {
    hide InFlight;
    if i: nat :| ReaderTakes(c, s, t, i) {
      TakeLightens(c, s, t, i);
    } else if i: nat :| ReaderSends(c, s, t, i) {
      SendLightens(c, s, t, i);
    } else if i: nat :| ReaderStops(c, s, t, i) {
      StopIdles(c, s, t, i);
    } else if Receives(c, s, t) || Forwards(c, s, t) || Drains(c, s, t) {
      DispatcherLightens(c, s, t);
    }
  }

  /** How many steps of a run are productive. */
  ghost function ProductiveSteps(c: Config, run: seq<State>): nat {
    if |run| < 2 then 0 else (if Productive(c, run[0], run[1]) then 1 else 0) + ProductiveSteps(c, run[1..])
  }

  lemma {:induction false} StepsBounded(c: Config, run: seq<State>)
    requires run != [] && forall k :: 0 <= k < |run| - 1 ==> Step(c, run[k], run[k + 1])
    ensures ProductiveSteps(c, run) + Load(run[|run| - 1]) <= Load(run[0])
  {
    hide Step, Productive, Load;
    if |run| > 1 {
      assert Step(c, run[0], run[1]);
      StepLightens(c, run[0], run[1]);
      forall k | 0 <= k < |run[1..]| - 1 ensures Step(c, run[1..][k], run[1..][k + 1]) {
        assert Step(c, run[k + 1], run[k + 2]);
      }
      StepsBounded(c, run[1..]);
    }
  }

  lemma {:induction false} HeightsLength(hs: seq<nat>)
    ensures |Heights(hs)| == |hs|
  {
    if hs != [] { HeightsLength(hs[1..]); }
  }

  lemma {:induction false} PillsLength(n: nat)
    ensures |Pills(n)| == n
  {
    if n > 0 { PillsLength(n - 1); }
  }

  lemma {:induction false} NoneInFlight(readers: seq<Reader>)
    requires forall i :: 0 <= i < |readers| ==> readers[i] == Idle
    ensures InFlight(readers) == multiset{}
  {
    if readers != [] { NoneInFlight(readers[1..]); }
  }

  /**
    Every run, with or without an abort, makes at most six productive steps for
    each height and stop marker: nothing but idle turns can delay the end.
   */
  lemma WorkBounded(c: Config, run: seq<State>)
    requires IsRun(c, run)
    ensures ProductiveSteps(c, run) <= 6 * (|c.heights| + READER_THREADS)
  {
    hide Step, ProductiveSteps, InFlight, Heights, Pills;
    StepsBounded(c, run);
    HeightsLength(c.heights);
    PillsLength(READER_THREADS);
    NoneInFlight(run[0].readers);
  }

  // ------------------------------------------------------ loading the queue

  ghost predicate Blocked(c: Config, queue: seq<Option<nat>>) {
    forall next :: !Loads(c, queue, next)
  }

  lemma {:induction false} LoadingStays(c: Config, queues: seq<seq<Option<nat>>>, k: nat)
    requires IsLoading(c, queues) && k < |queues|
    ensures queues[k] <= Items(c) && |queues[k]| == k <= c.Capacity()
  {
    if k > 0 {
      LoadingStays(c, queues, k - 1);
      assert Loads(c, queues[k - 1], queues[k]);
    }
  }

  /**
    Loading blocks for every list of heights: the queue is never as long as
    what is to be put into it, and once it is full nothing can be added, as
    readers are started only afterwards.
   */
  lemma LoadingBlocks(c: Config, queues: seq<seq<Option<nat>>>)
    requires c.Valid() && IsLoading(c, queues)
    ensures |Items(c)| > c.Capacity()
    ensures queues[|queues| - 1] != Items(c)
    ensures Blocked(c, queues[|queues| - 1]) <==> |queues| == c.Capacity() + 1
  {
    hide Heights, Pills;
    HeightsLength(c.heights);
    PillsLength(READER_THREADS);
    LoadingStays(c, queues, |queues| - 1);
    var last := queues[|queues| - 1];
    if |last| < c.Capacity() {
      assert Loads(c, last, last + [Items(c)[|last|]]);
    }
  }
}
