/** Shutting the event loop down: every worker that leaves wakes the next one through an
    eventfd in semaphore mode that epoll watches edge-triggered.  Workers, callers of
    `stop`, signals and events of listeners interleave arbitrarily. */
module WakeChain {
  import opened Runs

  /** Where a worker is. */
  datatype Pc =
    | LoopTop      // thread_loop, about to test is_okay
    | Entering     // update, about to test m_okay in the wait loop, nothing received yet
    | Waiting      // in epoll_wait
    | Left         // out of the wait loop without an event, about to test m_okay again
    | Interrupted  // took the branch for a failed epoll_wait
    | Took         // epoll_wait returned the semaphore's event
    | Consumed     // has read the semaphore
    | WillSignal   // about to increment the semaphore and terminate
    | Handling     // running a listener's handler
    | Done

  datatype Loop = Loop(
    okay: bool,
    count: int,          // value of the eventfd
    edge: bool,          // its event is on epoll's ready list
    workers: seq<Pc>,
    checked: nat,        // calls of stop that have found the loop running
    stopping: nat,       // calls of stop that have cleared m_okay and are closing listeners
    signalled: bool,     // the semaphore has been incremented at least once
    stops: nat)          // history: calls of stop that have returned
  {
    function Goto(i: nat, pc: Pc): Loop
      requires i < |workers|
    {
      this.(workers := workers[i := pc])
    }

    function Increment(): Loop {
      this.(count := count + 1, edge := true, signalled := true)
    }
  }

  datatype Label =
    | StopCheck
    | StopBegin
    | StopEnd
    | Worker(i: nat)             // the worker's next own step
    | Signal(i: nat)             // epoll_wait fails, interrupted by a signal
    | ListenerEvent(i: nat)      // epoll_wait returns a listener's event
    | UnknownEvent(i: nat)       // ... for a descriptor that is no longer in the table

  function Init(workers: nat): Loop {
    Loop(true, 0, false, seq(workers, i => LoopTop), 0, 0, false, 0)
  }

  function Next(s: Loop, l: Label): Option<Loop> {
    match l
    case StopCheck => if s.okay then Some(s.(checked := s.checked + 1)) else None
    case StopBegin =>
      if s.checked > 0 then Some(s.(checked := s.checked - 1, okay := false, stopping := s.stopping + 1)) else None
    case StopEnd => if s.stopping > 0 then Some(s.Increment().(stopping := s.stopping - 1, stops := s.stops + 1)) else None
    case Worker(i) => if i < |s.workers| then Step(s, i) else None
    case Signal(i) => if i < |s.workers| && s.workers[i].Waiting? then Some(s.Goto(i, Entering)) else None
    case ListenerEvent(i) => if i < |s.workers| && s.workers[i].Waiting? then Some(s.Goto(i, Handling)) else None
    case UnknownEvent(i) => if i < |s.workers| && s.workers[i].Waiting? then Some(s.Goto(i, Done)) else None
  }

  function Step(s: Loop, i: nat): Option<Loop>
    requires i < |s.workers|
  {
    match s.workers[i]
    case LoopTop => Some(s.Goto(i, if s.okay then Entering else Done))
    case Entering => Some(s.Goto(i, if s.okay then Waiting else Left))
    case Left => Some(s.Goto(i, if s.okay then Interrupted else WillSignal))
    case Waiting => if s.edge then Some(s.Goto(i, Took).(edge := false)) else None
    case Took => if s.count > 0 then Some(s.Goto(i, Consumed).(count := s.count - 1)) else None
    case Consumed => Some(s.Goto(i, if s.okay then Entering else WillSignal))
    case WillSignal => Some(s.Goto(i, Done).Increment())
    case Handling => Some(s.Goto(i, LoopTop))
    case Interrupted => None
    case Done => None
  }

  // ---------------------------------------------------------------- counting workers

  function Count(ws: seq<Pc>, pc: Pc): nat {
    if ws == [] then 0 else (if ws[0] == pc then 1 else 0) + Count(ws[1..], pc)
  }

  lemma {:induction false} CountUpdate(ws: seq<Pc>, i: nat, new_: Pc, pc: Pc)
    requires i < |ws|
    ensures Count(ws[i := new_], pc)
            == Count(ws, pc) - (if ws[i] == pc then 1 else 0) + (if new_ == pc then 1 else 0)
    decreases |ws|
  {
    if i == 0 {
      assert ws[i := new_][1..] == ws[1..];
    } else {
      assert ws[i := new_][1..] == ws[1..][i - 1 := new_];
      CountUpdate(ws[1..], i - 1, new_, pc);
    }
  }

  lemma {:induction false} CountPositive(ws: seq<Pc>, pc: Pc)
    ensures Count(ws, pc) > 0 <==> pc in ws
    decreases |ws|
  {
    if ws != [] {
      CountPositive(ws[1..], pc);
    }
  }

  lemma {:induction false} CountInit(n: nat, pc: Pc)
    ensures !pc.LoopTop? ==> Count(seq(n, i => LoopTop), pc) == 0
    decreases n
  {
    if n > 0 {
      assert seq(n, i => LoopTop)[1..] == seq(n - 1, i => LoopTop);
      CountInit(n - 1, pc);
    }
  }

  // ---------------------------------------------------------------- invariant

  /** Workers that hold the token between them and their increment. */
  function Holders(s: Loop): nat {
    Count(s.workers, Took) + Count(s.workers, Consumed) + Count(s.workers, WillSignal)
  }

  /** The counter covers the pending edge and everyone who has taken one; once signalled,
      the token is on epoll's ready list or with a worker; nothing is signalled while the
      loop runs, and once it does not, a call of stop has signalled or is going to. */
  predicate Token(s: Loop) {
    && s.count >= Count(s.workers, Took) + One(s.edge)
    && (s.signalled ==> s.edge || Holders(s) > 0)
    && (s.okay ==> !s.signalled && !s.edge && Holders(s) == 0 && s.stopping == 0)
    && (!s.okay ==> s.signalled || s.stopping > 0)
  }

  /** Nobody leaves the wait loop empty-handed while the loop runs, so nobody takes the
      branch for a failed epoll_wait. */
  predicate Places(s: Loop) {
    forall i :: 0 <= i < |s.workers| ==> (s.okay ==> !s.workers[i].Left?) && !s.workers[i].Interrupted?
  }

  /** Every increment belongs to a call of stop or to a worker that has left, and whoever
      consumes takes one back: the eventfd does not fill up. */
  predicate Bounded(s: Loop) {
    s.count + Count(s.workers, Consumed) <= s.stops + Count(s.workers, Done)
  }

  ghost predicate Inv(s: Loop) {
    Token(s) && Places(s) && Bounded(s)
  }

  lemma GotoCounts(s: Loop, i: nat, pc: Pc)
    requires i < |s.workers|
    ensures var r := s.Goto(i, pc);
            && Count(r.workers, Took) == Count(s.workers, Took) - One(s.workers[i].Took?) + One(pc.Took?)
            && Count(r.workers, Consumed)
               == Count(s.workers, Consumed) - One(s.workers[i].Consumed?) + One(pc.Consumed?)
            && Count(r.workers, Done) == Count(s.workers, Done) - One(s.workers[i].Done?) + One(pc.Done?)
            && Count(r.workers, WillSignal)
               == Count(s.workers, WillSignal) - One(s.workers[i].WillSignal?) + One(pc.WillSignal?)
  {
    CountUpdate(s.workers, i, pc, Took);
    CountUpdate(s.workers, i, pc, Consumed);
    CountUpdate(s.workers, i, pc, WillSignal);
    CountUpdate(s.workers, i, pc, Done);
  }

  function One(b: bool): int { if b then 1 else 0 }

  predicate OfWorker(l: Label) {
    l.Worker? || l.Signal? || l.ListenerEvent? || l.UnknownEvent?
  }

  lemma WorkerStep(s: Loop, l: Label, r: Loop)
    requires OfWorker(l) && Next(s, l) == Some(r)
    ensures l.i < |s.workers| == |r.workers| && r.workers == s.workers[l.i := r.workers[l.i]]
    ensures r.okay == s.okay && r.checked == s.checked && r.stopping == s.stopping
  {
  }

  lemma StepPlaces(s: Loop, l: Label, r: Loop)
    requires Places(s) && Next(s, l) == Some(r)
    ensures Places(r)
  {
    if OfWorker(l) {
      WorkerStep(s, l, r);
    }
  }

  lemma StepToken(s: Loop, l: Label, r: Loop)
    requires Token(s) && Next(s, l) == Some(r)
    ensures Token(r)
  {
    if l.Worker? {
      OwnStepToken(s, l.i, r);
    } else if OfWorker(l) {
      GotoCounts(s, l.i, r.workers[l.i]);
    }
  }

  /** What a worker does to the counter and the edge when it goes from one place to another. */
  lemma OwnStepEffect(s: Loop, i: nat, r: Loop)
    requires i < |s.workers| && Step(s, i) == Some(r)
    ensures i < |r.workers| && r.okay == s.okay && r.stopping == s.stopping
    ensures var from, to := s.workers[i], r.workers[i];
            && r.count == s.count - One(from.Took?) + One(from.WillSignal?)
            && (r.edge <==> if from.Waiting? then false else s.edge || from.WillSignal?)
            && (r.signalled <==> s.signalled || from.WillSignal?)
            && (to.Took? <==> from.Waiting?) && (from.Took? <==> to.Consumed?) && (from.Waiting? ==> s.edge)
            && (from.Consumed? ==> to.WillSignal? || s.okay) && (to.WillSignal? ==> !s.okay)
            && (from.WillSignal? ==> to.Done?) && !from.Done?
  {
  }

  lemma OwnStepToken(s: Loop, i: nat, r: Loop)
    requires i < |s.workers| && Token(s) && Step(s, i) == Some(r)
    ensures Token(r)
  {
    OwnStepEffect(s, i, r);
    WorkerStep(s, Worker(i), r);
    GotoCounts(s, i, r.workers[i]);
  }

  lemma StepBounded(s: Loop, l: Label, r: Loop)
    requires Bounded(s) && Next(s, l) == Some(r)
    ensures Bounded(r)
  {
    if OfWorker(l) {
      WorkerStep(s, l, r);
      GotoCounts(s, l.i, r.workers[l.i]);
      if l.Worker? {
        OwnStepEffect(s, l.i, r);
      }
    }
  }

  lemma StepKeepsInv(s: Loop, l: Label, r: Loop)
    requires Inv(s) && Next(s, l) == Some(r)
    ensures Inv(r)
  {
    StepBounded(s, l, r);
    StepToken(s, l, r);
    StepPlaces(s, l, r);
  }

  lemma EveryRunIsSafe(workers: nat, steps: seq<Label>)
    ensures var r := Run(Next, Init(workers), steps); r.Some? ==> Inv(r.value)
  {
    CountInit(workers, Took);
    CountInit(workers, Consumed);
    CountInit(workers, WillSignal);
    CountInit(workers, Done);
    forall s, l | Inv(s) && Next(s, l).Some? ensures Inv(Next(s, l).value) {
      StepKeepsInv(s, l, Next(s, l).value);
    }
    InvariantAlongRun(Next, Inv, Init(workers), steps);
  }

  /** In every run, whoever got the semaphore's event finds it positive, so reading it
      never fails; and the branch for a failed epoll_wait is never taken. */
  lemma DecrementNeverFails(workers: nat, steps: seq<Label>, i: nat)
    ensures var r := Run(Next, Init(workers), steps);
            r.Some? && i < |r.value.workers| ==>
              && (r.value.workers[i].Took? ==> r.value.count > 0)
              && !r.value.workers[i].Interrupted?
  {
    EveryRunIsSafe(workers, steps);
    var r := Run(Next, Init(workers), steps);
    if r.Some? {
      CountPositive(r.value.workers, Took);
    }
  }

  // ---------------------------------------------------------------- no worker leaves early

  /** While the loop runs nobody is on the way out. */
  lemma NobodyLeaving(s: Loop, i: nat)
    requires Inv(s) && s.okay && i < |s.workers|
    ensures var pc := s.workers[i]; pc.LoopTop? || pc.Entering? || pc.Waiting? || pc.Handling? || pc.Done?
  {
    CountPositive(s.workers, Took);
    CountPositive(s.workers, Consumed);
    CountPositive(s.workers, WillSignal);
  }

  lemma StepDone(s: Loop, l: Label, r: Loop, i: nat)
    requires Inv(s) && Next(s, l) == Some(r) && r.okay && i < |s.workers|
    ensures s.okay && |r.workers| == |s.workers|
    ensures r.workers[i].Done? <==> s.workers[i].Done? || l == UnknownEvent(i)
  {
    NobodyLeaving(s, i);
  }

  /** In every run, as long as the loop runs, a worker has terminated exactly if it was
      given an event for a descriptor that is not in the table. */
  lemma {:induction false} WorkersStay(workers: nat, steps: seq<Label>, i: nat)
    requires Run(Next, Init(workers), steps).Some? && i < workers
    requires Run(Next, Init(workers), steps).value.okay
    ensures var r := Run(Next, Init(workers), steps).value;
            |r.workers| == workers && (r.workers[i].Done? <==> UnknownEvent(i) in steps)
    decreases |steps|
  {
    if steps != [] {
      var first, l := steps[..|steps| - 1], steps[|steps| - 1];
      assert steps == first + [l];
      RunLast(Next, Init(workers), steps);
      EveryRunIsSafe(workers, first);
      var s, r := Run(Next, Init(workers), first).value, Run(Next, Init(workers), steps).value;
      OkayBefore(s, l, r);
      WorkersStay(workers, first, i);
      StepDone(s, l, r, i);
    }
  }

  lemma OkayBefore(s: Loop, l: Label, r: Loop)
    requires Next(s, l) == Some(r) && r.okay
    ensures s.okay
  {
  }

  /** A worker terminates at the head of its loop, for an event of an unknown descriptor, or
      behind its increment, which wakes the next; so whoever leaves the wait because the
      loop was stopped has passed the token on. */
  lemma WhoTerminates(s: Loop, l: Label, r: Loop, i: nat)
    requires Next(s, l) == Some(r) && i < |s.workers| && |r.workers| == |s.workers|
    requires !s.workers[i].Done? && r.workers[i].Done?
    ensures || (l == Worker(i) && s.workers[i].LoopTop? && !s.okay && r == s.Goto(i, Done))
            || (l == UnknownEvent(i) && s.workers[i].Waiting? && r == s.Goto(i, Done))
            || (l == Worker(i) && s.workers[i].WillSignal? && r == s.Goto(i, Done).Increment())
  {
  }

  /** And every other worker gets back to waiting for events by its own steps. */
  lemma WorkerWaitsAgain(s: Loop, i: nat) returns (steps: seq<Label>, r: Loop)
    requires Inv(s) && s.okay && i < |s.workers| && !s.workers[i].Done?
    ensures Leads(Next, s, steps, r) && (forall l :: l in steps ==> l == Worker(i))
    ensures r == s.Goto(i, Waiting)
  {
    NobodyLeaving(s, i);
    steps, r := [], s;
    if r.workers[i].Handling? {
      var q := r.Goto(i, LoopTop);
      LeadsOneMore(Next, s, steps, r, Worker(i), q);
      steps, r := steps + [Worker(i)], q;
    }
    if r.workers[i].LoopTop? {
      var q := r.Goto(i, Entering);
      LeadsOneMore(Next, s, steps, r, Worker(i), q);
      steps, r := steps + [Worker(i)], q;
    }
    if r.workers[i].Entering? {
      var q := r.Goto(i, Waiting);
      LeadsOneMore(Next, s, steps, r, Worker(i), q);
      steps, r := steps + [Worker(i)], q;
    }
    assert r.workers == s.workers[i := Waiting];
  }

  /** What ends a worker's wait: the semaphore's event makes it read the semaphore, that of a
      listener makes it run the handler and then go back to the head of its loop, and a
      signal changes nothing in the end while the loop runs. */
  lemma WaitEnds(s: Loop, i: nat, l: Label, r: Loop)
    requires i < |s.workers| && s.workers[i].Waiting? && OfWorker(l) && l.i == i && Next(s, l) == Some(r)
    ensures l.Worker? ==> s.edge && r == s.Goto(i, Took).(edge := false)
    ensures l.ListenerEvent? ==> Next(r, Worker(i)) == Some(s.Goto(i, LoopTop)) && r.workers[i].Handling?
    ensures l.Signal? && s.okay ==> Next(r, Worker(i)) == Some(s)
    ensures l.UnknownEvent? ==> r == s.Goto(i, Done)
  {
    assert s.workers[i := Waiting] == s.workers;
    assert r.workers[i := LoopTop] == s.workers[i := LoopTop];
    assert r.workers[i := Waiting] == s.workers;
  }

  /** In every run the eventfd never holds more than the calls of stop and the workers that
      have terminated account for. */
  lemma EventFdBounded(workers: nat, steps: seq<Label>)
    ensures var r := Run(Next, Init(workers), steps);
            r.Some? ==> 0 <= r.value.count <= r.value.stops + Count(r.value.workers, Done)
  {
    EveryRunIsSafe(workers, steps);
  }

  // ---------------------------------------------------------------- every worker leaves

  /** How far a worker is from terminating once the loop is stopped. */
  function Rank(pc: Pc): nat {
    match pc
    case Waiting => 6
    case Entering => 5
    case Left => 4
    case Took => 4
    case Consumed => 3
    case Handling => 2
    case WillSignal => 1
    case LoopTop => 1
    case Interrupted => 0
    case Done => 0
  }

  function TotalRank(ws: seq<Pc>): nat {
    if ws == [] then 0 else Rank(ws[0]) + TotalRank(ws[1..])
  }

  lemma {:induction false} TotalRankUpdate(ws: seq<Pc>, i: nat, pc: Pc)
    requires i < |ws|
    ensures TotalRank(ws[i := pc]) == TotalRank(ws) - Rank(ws[i]) + Rank(pc)
    decreases |ws|
  {
    if i == 0 {
      assert ws[i := pc][1..] == ws[1..];
    } else {
      assert ws[i := pc][1..] == ws[1..][i - 1 := pc];
      TotalRankUpdate(ws[1..], i - 1, pc);
    }
  }

  /** The loop is stopped and `stop` has returned. */
  ghost predicate Stopped(s: Loop) {
    Inv(s) && !s.okay && s.signalled && s.checked == 0 && s.stopping == 0
  }

  /** What is left to do once `stop` has returned. */
  function WorkLeft(s: Loop): nat {
    TotalRank(s.workers)
  }

  lemma RankDrops(s: Loop, l: Label, r: Loop)
    requires !s.okay && OfWorker(l) && Next(s, l) == Some(r)
    ensures l.i < |s.workers| == |r.workers| && Rank(r.workers[l.i]) < Rank(s.workers[l.i])
    ensures s.signalled ==> r.signalled
  {
  }

  lemma StoppedStep(s: Loop, l: Label, r: Loop)
    requires Stopped(s) && Next(s, l) == Some(r)
    ensures Stopped(r) && WorkLeft(r) < WorkLeft(s)
  {
    StepKeepsInv(s, l, r);
    WorkerStep(s, l, r);
    RankDrops(s, l, r);
    TotalRankUpdate(s.workers, l.i, r.workers[l.i]);
  }

  ghost predicate AllDone(s: Loop) {
    forall i :: 0 <= i < |s.workers| ==> s.workers[i].Done?
  }

  /** A call of `stop`, with nobody else at it, brings the running loop there. */
  lemma StopStops(s: Loop) returns (r: Loop)
    requires Inv(s) && s.okay && s.checked == 0
    ensures Leads(Next, s, [StopCheck] + [StopBegin] + [StopEnd], r) && Stopped(r)
    ensures r.workers == s.workers && r.count == s.count + 1 && r.edge
  {
    var s1 := s.(checked := 1);
    LeadsOne(Next, s, StopCheck, s1);
    var s2 := s1.(checked := 0, okay := false, stopping := 1);
    LeadsOneMore(Next, s, [StopCheck], s1, StopBegin, s2);
    r := s2.Increment().(stopping := 0, stops := s.stops + 1);
    LeadsOneMore(Next, s, [StopCheck] + [StopBegin], s2, StopEnd, r);
    StepKeepsInv(s, StopCheck, s1);
    StepKeepsInv(s1, StopBegin, s2);
    StepKeepsInv(s2, StopEnd, r);
  }

  /** No stranded worker: as long as some worker is left, some worker can take a step of
      its own; nobody depends on a signal or on an event of a listener. */
  lemma SomeWorkerCanStep(s: Loop) returns (i: nat)
    requires Stopped(s) && !AllDone(s)
    ensures i < |s.workers| && Next(s, Worker(i)).Some?
  {
    if s.edge {
      i :| i < |s.workers| && !s.workers[i].Done?;
      CountPositive(s.workers, Took);
    } else {
      CountPositive(s.workers, Took);
      CountPositive(s.workers, Consumed);
      CountPositive(s.workers, WillSignal);
      var pc :| pc in s.workers && (pc.Took? || pc.Consumed? || pc.WillSignal?);
      i :| i < |s.workers| && s.workers[i] == pc;
    }
  }

  lemma StoppedRun(s: Loop, steps: seq<Label>)
    requires Stopped(s) && Run(Next, s, steps).Some?
    ensures |steps| <= WorkLeft(s)
    ensures var r := Run(Next, s, steps).value;
            (forall l :: Next(r, l).None?) ==> AllDone(r)
  {
    forall s, l | Stopped(s) && Next(s, l).Some?
      ensures Stopped(Next(s, l).value) && WorkLeft(Next(s, l).value) < WorkLeft(s)
    {
      StoppedStep(s, l, Next(s, l).value);
    }
    InvariantAlongRun(Next, Stopped, s, steps);
    RunsAreBounded(Next, Stopped, WorkLeft, s, steps);
    var r := Run(Next, s, steps).value;
    if !AllDone(r) {
      var i := SomeWorkerCanStep(r);
      assert Next(r, Worker(i)).Some?;
    }
  }

  /** Take any run to a state in which the loop is stopped and every call of `stop` has
      returned.  From there no run takes more steps than the rank of its workers, and a run
      that cannot go on has ended every worker: `wait` joins them all. */
  lemma AllWorkersTerminate(workers: nat, before: seq<Label>, s: Loop, steps: seq<Label>)
    requires Leads(Next, Init(workers), before, s) && !s.okay && s.checked == 0 && s.stopping == 0
    requires Run(Next, s, steps).Some?
    ensures |steps| <= WorkLeft(s)
    ensures var r := Run(Next, s, steps).value;
            (forall l :: Next(r, l).None?) ==> AllDone(r)
  {
    EveryRunIsSafe(workers, before);
    StoppedRun(s, steps);
  }
}
