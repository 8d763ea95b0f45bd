/** Delayed sending: messages wait in a list while their deadlines wait in the timer.  The
    list and the deadlines are tied together by their numbers only: each callback of the
    timer sends whatever is first in the list. */
module DelayedSender {
  import opened Runs
  import Timer

  type Payload = nat

  datatype Pending = Pending(payload: Payload, due: Option<int>)

  /** A message that has left the list; `sent` says that there was a socket to send it to. */
  datatype Departure = Departure(payload: Payload, due: Option<int>, at: int, sent: bool)

  /** A callback that has the mutex: it has compared its socket with null, and has then
      asked the socket whether it is valid. */
  datatype Calling = NoCall | Compared(found: bool) | Tested(valid: bool)

  datatype State = State(
    timer: Timer.State,
    pending: seq<Pending>,         // m_pending_messages
    pushing: Option<nat>,          // delay of a schedule between the list and the timer; it has the mutex
    attached: bool,                // m_socket != nullptr
    calling: Calling,
    nullUse: bool,                 // history: a null pointer has been used
    scheduled: seq<Payload>,       // history: messages in the order they were scheduled
    delays: seq<nat>,              // with their delays
    departed: seq<Departure>,      // and in the order they left
    inOrder: bool)                 // no deadline was earlier than one before it
  {
    /** The callback knows whether it is going to send. */
    predicate Decided() { calling == Compared(false) || calling.Tested? }

    predicate Sends() { calling == Tested(true) }
  }

  datatype Label =
    | Push(payload: Payload, delay: nat)
    | SetDeadline(lag: nat)
    | Compare                      // a callback takes the mutex and compares its socket with null
    | Test(socketValid: bool)      // asks the socket whether it is valid
    | OnTimeEvent                  // and sends or discards the first message
    | Detach
    | TimerStep(step: Timer.Label)

  function Init(clock: nat): State {
    State(Timer.Init(clock), [], None, true, NoCall, false, [], [], [], true)
  }

  /** The steps the timer takes by itself; it is scheduled and calls back only through the sender. */
  predicate Internal(l: Timer.Label) {
    !l.Schedule? && !l.Unschedule? && !l.Callback?
  }

  function Next(s: State, l: Label): Option<State> {
    match l
    case Push(payload, delay) =>
      if s.pushing.None? && s.calling.NoCall? then Some(Pushed(s, payload, delay)) else None
    case SetDeadline(lag) =>
      if s.pushing.Some? && s.timer.Unlocked() && s.pending != [] then Some(DeadlineSet(s, s.pushing.value, lag)) else None
    case Compare =>
      if s.pushing.None? && s.calling.NoCall? && Timer.Next(s.timer, Timer.Callback).Some?
      then Some(s.(calling := Compared(s.attached))) else None
    case Test(socketValid) =>
      if s.calling == Compared(true)
      then Some(s.(calling := Tested(socketValid), nullUse := s.nullUse || !s.attached)) else None
    case OnTimeEvent =>
      // an empty list would be dereferenced
      if s.Decided() && Timer.Next(s.timer, Timer.Callback).Some? && s.pending != []
      then Some(Departed(s)) else None
    case Detach => Some(s.(attached := false))
    case TimerStep(step) =>
      // the sender drops its socket before it closes the timer
      if Internal(step) && (step.CloseTimer? ==> !s.attached) && Timer.Next(s.timer, step).Some?
      then Some(s.(timer := Timer.Next(s.timer, step).value)) else None
  }

  function Pushed(s: State, payload: Payload, delay: nat): State {
    s.(pending := s.pending + [Pending(payload, None)], pushing := Some(delay),
       scheduled := s.scheduled + [payload], delays := s.delays + [delay])
  }

  function DeadlineSet(s: State, delay: nat, lag: nat): State
    requires s.pending != []
  {
    var r := s.(timer := Timer.Scheduled(s.timer, delay, lag), pushing := None);
    if !s.timer.open then r
    else
      var start, last := s.timer.Now() + delay, |s.pending| - 1;
      r.(pending := s.pending[last := s.pending[last].(due := Some(start))],
         inOrder := s.inOrder && forall i :: 0 <= i < last && s.pending[i].due.Some? ==> s.pending[i].due.value <= start)
  }

  function Departed(s: State): State
    requires s.Decided() && s.pending != [] && Timer.Next(s.timer, Timer.Callback).Some?
  {
    var p := s.pending[0];
    s.(timer := Timer.Next(s.timer, Timer.Callback).value, pending := s.pending[1..],
       departed := s.departed + [Departure(p.payload, p.due, s.timer.Now(), s.Sends())],
       calling := NoCall, nullUse := s.nullUse || (s.Sends() && !s.attached))
  }

  // ---------------------------------------------------------------- coupling

  /** Deadlines queued, and callbacks owed for those that were taken out. */
  function Promised(s: State): nat {
    |s.timer.queued| + Timer.Owed(s.timer.handler)
  }

  function PushingOne(s: State): nat {
    if s.pushing.Some? then 1 else 0
  }

  /** The first so many messages of the list have a deadline, the others do not. */
  predicate Coupled(s: State) {
    && Promised(s) + PushingOne(s) <= |s.pending|
    && (s.timer.open ==> |s.pending| == Promised(s) + PushingOne(s))
    && (forall i :: 0 <= i < |s.pending| ==> (s.pending[i].due.Some? <==> i < Promised(s)))
  }

  function Payloads(ps: seq<Pending>): seq<Payload> {
    seq(|ps|, i requires 0 <= i < |ps| => ps[i].payload)
  }

  function Gone(ds: seq<Departure>): seq<Payload> {
    seq(|ds|, i requires 0 <= i < |ds| => ds[i].payload)
  }

  /** Messages leave in the order in which they were scheduled. */
  predicate FirstInFirstOut(s: State) {
    s.scheduled == Gone(s.departed) + Payloads(s.pending)
  }

  ghost predicate Inv(s: State) {
    Timer.Inv(s.timer) && Coupled(s) && FirstInFirstOut(s)
  }

  lemma TimerStepCounts(t: Timer.State, l: Timer.Label, r: Timer.State)
    requires Internal(l) && Timer.Next(t, l) == Some(r)
    ensures |r.queued| + Timer.Owed(r.handler) == |t.queued| + Timer.Owed(t.handler)
    ensures r.open ==> t.open
  {
  }

  lemma DeadlineCouples(s: State, lag: nat, r: State)
    requires Coupled(s) && Next(s, SetDeadline(lag)) == Some(r)
    ensures Coupled(r)
  {
  }

  lemma StepCouples(s: State, l: Label, r: State)
    requires Coupled(s) && Next(s, l) == Some(r)
    ensures Coupled(r)
  {
    match l
    case SetDeadline(lag) => DeadlineCouples(s, lag, r);
    case TimerStep(step) => TimerStepCounts(s.timer, step, r.timer);
    case _ =>
  }

  lemma StepFifo(s: State, l: Label, r: State)
    requires FirstInFirstOut(s) && Next(s, l) == Some(r)
    ensures FirstInFirstOut(r)
  {
    match l
    case Push(payload, _) => assert Payloads(r.pending) == Payloads(s.pending) + [payload];
    case SetDeadline(_) => assert Payloads(r.pending) == Payloads(s.pending);
    case OnTimeEvent =>
      assert Gone(r.departed) == Gone(s.departed) + [s.pending[0].payload];
      assert Payloads(s.pending) == [s.pending[0].payload] + Payloads(r.pending);
    case _ =>
  }

  /** The timer only sees steps of its own transition system. */
  lemma StepTimer(s: State, l: Label, r: State)
    requires Timer.Inv(s.timer) && Next(s, l) == Some(r)
    ensures Timer.Inv(r.timer)
  {
    match l
    case SetDeadline(lag) =>
      Timer.StepKeepsInv(s.timer, Timer.Schedule(s.pushing.value, lag), r.timer);
    case OnTimeEvent => Timer.StepKeepsInv(s.timer, Timer.Callback, r.timer);
    case TimerStep(step) => Timer.StepKeepsInv(s.timer, step, r.timer);
    case _ =>
  }

  lemma StepKeepsInv(s: State, l: Label, r: State)
    requires Inv(s) && Next(s, l) == Some(r)
    ensures Inv(r)
  {
    StepTimer(s, l, r);
    StepCouples(s, l, r);
    StepFifo(s, l, r);
  }

  lemma EveryRunIsSafe(clock: nat, steps: seq<Label>)
    ensures var r := Run(Next, Init(clock), steps); r.Some? ==> Inv(r.value)
  {
    forall s, l | Inv(s) && Next(s, l).Some? ensures Inv(Next(s, l).value) {
      StepKeepsInv(s, l, Next(s, l).value);
    }
    InvariantAlongRun(Next, Inv, Init(clock), steps);
  }

  /** In every run, with any delays: a callback that is owed finds a message in the list,
      messages leave in the order in which they were scheduled, and while the timer is open
      and nothing is being scheduled there are exactly as many messages as promises. */
  lemma CallbackFindsMessage(clock: nat, steps: seq<Label>)
    ensures var r := Run(Next, Init(clock), steps);
            r.Some? ==>
              && (Timer.Owed(r.value.timer.handler) > 0 ==> r.value.pending != [])
              && Gone(r.value.departed) <= r.value.scheduled
              && |r.value.pending| >= Promised(r.value)
              && (r.value.timer.open && r.value.pushing.None? ==> |r.value.pending| == Promised(r.value))
  {
    EveryRunIsSafe(clock, steps);
  }

  // ---------------------------------------------------------------- punctuality

  /** The first `owed` messages of a list have deadlines that had passed at `now`; those of
      the messages behind them are `queued`, in the same order. */
  predicate Matched(pending: seq<Pending>, owed: nat, now: int, queued: seq<int>) {
    && owed + |queued| <= |pending|
    && (forall i :: 0 <= i < owed ==> pending[i].due.Some? && pending[i].due.value <= now)
    && (forall i :: owed <= i < owed + |queued| ==> pending[i].due == Some(queued[i - owed]))
  }

  predicate LeftOnTime(departed: seq<Departure>) {
    forall i :: 0 <= i < |departed| ==> departed[i].due.Some? && departed[i].due.value <= departed[i].at
  }

  /** When the handler took out the deadlines whose callbacks it owes. */
  function TakenAt(h: Timer.Handler): int {
    if h.CallingBack? then h.now else 0
  }

  /** The deadlines of the list are those of the timer, in the same order; those of
      messages whose callback is owed have passed; and nothing has left early. */
  predicate Punctual(s: State) {
    && Matched(s.pending, Timer.Owed(s.timer.handler), TakenAt(s.timer.handler), s.timer.queued)
    && LeftOnTime(s.departed)
  }

  ghost predicate PunctualInv(s: State) {
    Inv(s) && (s.inOrder ==> Punctual(s))
  }

  lemma MatchedDrain(pending: seq<Pending>, now: int, queued: seq<int>, k: nat, now': int)
    requires Matched(pending, 0, now, queued) && k <= |queued| && forall i :: 0 <= i < k ==> queued[i] <= now'
    ensures Matched(pending, k, now', queued[k..])
  {
  }

  lemma MatchedInsert(pending: seq<Pending>, owed: nat, now: int, queued: seq<int>, due: int)
    requires Matched(pending, owed, now, queued) && |pending| == owed + |queued| + 1
    requires WithinDelay(pending[..|pending| - 1], due)
    ensures var last := |pending| - 1;
            Matched(pending[last := pending[last].(due := Some(due))], owed, now, Timer.Insert(queued, due))
  {
    forall k | 0 <= k < |queued| ensures queued[k] <= due {
      assert pending[..|pending| - 1][k + owed].due == Some(queued[k]);
    }
    InsertLast(queued, due);
  }

  lemma MatchedDeparture(pending: seq<Pending>, owed: nat, now: int, queued: seq<int>)
    requires Matched(pending, owed, now, queued) && owed > 0
    ensures Matched(pending[1..], owed - 1, now, queued)
  {
  }

  lemma {:induction false} InsertLast(q: seq<int>, x: int)
    requires forall k :: 0 <= k < |q| ==> q[k] <= x
    ensures Timer.Insert(q, x) == q + [x]
  {
    UpperBoundLast(q, x);
  }

  lemma {:induction false} UpperBoundLast(q: seq<int>, x: int)
    requires forall k :: 0 <= k < |q| ==> q[k] <= x
    ensures Timer.UpperBound(q, x) == |q|
    decreases |q|
  {
    if q != [] {
      UpperBoundLast(q[1..], x);
    }
  }

  lemma DeadlineChanges(s: State, lag: nat, r: State)
    requires s.timer.open && Next(s, SetDeadline(lag)) == Some(r)
    ensures var due, last := s.timer.Now() + s.pushing.value, |s.pending| - 1;
            && r.timer.queued == Timer.Insert(s.timer.queued, due) && r.timer.handler == s.timer.handler
            && r.pending == s.pending[last := s.pending[last].(due := Some(due))] && r.departed == s.departed
            && (r.inOrder ==> s.inOrder && WithinDelay(s.pending[..last], due))
  {
  }

  lemma DeadlineMatches(s: State, due: int, r: State)
    requires Coupled(s) && Punctual(s) && s.timer.open && s.pushing.Some?
    requires r.timer.queued == Timer.Insert(s.timer.queued, due) && r.timer.handler == s.timer.handler
    requires var last := |s.pending| - 1;
             r.pending == s.pending[last := s.pending[last].(due := Some(due))] && WithinDelay(s.pending[..last], due)
    requires r.departed == s.departed
    ensures Punctual(r)
  {
    MatchedInsert(s.pending, Timer.Owed(s.timer.handler), TakenAt(s.timer.handler), s.timer.queued, due);
  }

  lemma DeadlineMissed(s: State, lag: nat, r: State)
    requires !s.timer.open && Next(s, SetDeadline(lag)) == Some(r)
    ensures r == s.(pushing := None)
  {
  }

  lemma DeadlinePunctual(s: State, lag: nat, r: State)
    requires Coupled(s) && Next(s, SetDeadline(lag)) == Some(r)
    requires s.inOrder && Punctual(s)
    ensures r.inOrder ==> Punctual(r)
  {
    if !s.timer.open {
      DeadlineMissed(s, lag, r);
    } else if r.inOrder {
      assert Punctual(r) by {
        DeadlineChanges(s, lag, r);
        DeadlineMatches(s, s.timer.Now() + s.pushing.value, r);
      }
    }
  }

  lemma DeadlineOrder(s: State, lag: nat, r: State)
    requires Next(s, SetDeadline(lag)) == Some(r)
    ensures r.inOrder ==> s.inOrder
  {
  }

  lemma TimerStepPunctual(s: State, l: Timer.Label, r: State)
    requires Punctual(s) && Next(s, TimerStep(l)) == Some(r)
    ensures Punctual(r)
  {
    if l.Drain? {
      MatchedDrain(s.pending, 0, s.timer.queued, Timer.CountDue(s.timer.queued, s.timer.Now()), s.timer.Now());
    } else {
      TimerStepKeepsQueue(s.timer, l, r.timer);
    }
  }

  lemma TimerStepKeepsQueue(t: Timer.State, l: Timer.Label, r: Timer.State)
    requires Internal(l) && !l.Drain? && Timer.Next(t, l) == Some(r)
    ensures r.queued == t.queued && Timer.Owed(r.handler) == Timer.Owed(t.handler)
    ensures Timer.Owed(r.handler) > 0 ==> TakenAt(r.handler) == TakenAt(t.handler)
  {
  }

  lemma DeparturePunctual(s: State, r: State)
    requires Timer.HandlerOk(s.timer)
    requires Punctual(s) && Next(s, OnTimeEvent) == Some(r)
    ensures Punctual(r)
  {
    assert s.pending[0].due.value <= s.timer.handler.now <= s.timer.Now();
    MatchedDeparture(s.pending, Timer.Owed(s.timer.handler), s.timer.handler.now, s.timer.queued);
  }

  lemma StepPunctual(s: State, l: Label, r: State)
    requires PunctualInv(s) && Next(s, l) == Some(r)
    ensures PunctualInv(r)
  {
    StepKeepsInv(s, l, r);
    match l
    case SetDeadline(lag) =>
      DeadlineOrder(s, lag, r);
      if s.inOrder { DeadlinePunctual(s, lag, r); }
    case TimerStep(step) => if s.inOrder { TimerStepPunctual(s, step, r); }
    case OnTimeEvent => if s.inOrder { DeparturePunctual(s, r); }
    case _ =>
  }

  /** In every run whose deadlines come in the order of the messages, no message is sent
      before its own deadline. */
  lemma InOrderIsPunctual(clock: nat, steps: seq<Label>)
    ensures var r := Run(Next, Init(clock), steps);
            r.Some? && r.value.inOrder ==> LeftOnTime(r.value.departed)
  {
    forall s, l | PunctualInv(s) && Next(s, l).Some? ensures PunctualInv(Next(s, l).value) {
      StepPunctual(s, l, Next(s, l).value);
    }
    InvariantAlongRun(Next, PunctualInv, Init(clock), steps);
  }

  predicate NonDecreasing(ds: seq<nat>) {
    forall i, j :: 0 <= i < j < |ds| ==> ds[i] <= ds[j]
  }

  function Latest(ds: seq<nat>): nat {
    if ds == [] then 0 else ds[|ds| - 1]
  }

  /** With delays that are never lowered, deadlines come in the order of the messages. */
  predicate Sequenced(s: State) {
    NonDecreasing(s.delays) ==>
      && s.inOrder && (s.pushing.Some? ==> s.pushing.value == Latest(s.delays))
      && WithinDelay(s.pending, s.timer.Now() + Latest(s.delays))
  }

  predicate WithinDelay(pending: seq<Pending>, bound: int) {
    forall i :: 0 <= i < |pending| && pending[i].due.Some? ==> pending[i].due.value <= bound
  }

  lemma NonDecreasingLast(ds: seq<nat>, d: nat)
    ensures NonDecreasing(ds + [d]) <==> NonDecreasing(ds) && (ds != [] ==> Latest(ds) <= d)
  {
    var all := ds + [d];
    if NonDecreasing(all) {
      forall i, j | 0 <= i < j < |ds| ensures ds[i] <= ds[j] {
        assert all[i] <= all[j];
      }
      assert ds != [] ==> all[|ds| - 1] <= all[|ds|];
    }
  }

  lemma PushSequenced(s: State, payload: Payload, delay: nat)
    requires Sequenced(s)
    ensures Sequenced(Pushed(s, payload, delay))
  {
    NonDecreasingLast(s.delays, delay);
  }

  lemma DeadlineSequenced(s: State, lag: nat, r: State)
    requires Sequenced(s) && Next(s, SetDeadline(lag)) == Some(r)
    ensures Sequenced(r)
  {
    Timer.NowGrows(s.timer.clock, r.timer.clock);
  }

  lemma StepSequenced(s: State, l: Label, r: State)
    requires Sequenced(s) && Next(s, l) == Some(r)
    ensures Sequenced(r)
  {
    match l
    case Push(payload, delay) => PushSequenced(s, payload, delay);
    case SetDeadline(lag) => DeadlineSequenced(s, lag, r);
    case TimerStep(step) => Timer.NowGrows(s.timer.clock, r.timer.clock);
    case _ =>
  }

  /** If no delay is lower than one before it, no message is sent before its own deadline,
      in any run.  A fixed delay is a special case. */
  lemma UnloweredDelaysArePunctual(clock: nat, steps: seq<Label>)
    ensures var r := Run(Next, Init(clock), steps);
            r.Some? && NonDecreasing(r.value.delays) ==> LeftOnTime(r.value.departed)
  {
    forall s, l | Sequenced(s) && Next(s, l).Some? ensures Sequenced(Next(s, l).value) {
      StepSequenced(s, l, Next(s, l).value);
    }
    InvariantAlongRun(Next, Sequenced, Init(clock), steps);
    InOrderIsPunctual(clock, steps);
  }

  // ---------------------------------------------------------------- what a lowered delay does

  lemma LeadsTimer(s: State, l: Timer.Label, t: Timer.State)
    requires Internal(l) && !l.CloseTimer? && Timer.Next(s.timer, l) == Some(t)
    ensures Leads(Next, s, [TimerStep(l)], s.(timer := t))
  {
    LeadsOne(Next, s, TimerStep(l), s.(timer := t));
  }

  /** The timer goes off when it is due, and the handler takes out what has passed. */
  lemma WakeUp(s: State, wait: nat) returns (steps: seq<Label>, r: State)
    requires s.timer.handler.NoEvent? && s.timer.alarm == Some(s.timer.clock + wait)
    ensures Leads(Next, s, steps, r)
    ensures var now := (s.timer.clock + wait) / Timer.NS_PER_MS;
            var k := Timer.CountDue(s.timer.queued, now);
            && r == s.(timer := r.timer) && r.timer.open == s.timer.open && r.timer.clock == s.timer.clock + wait
            && r.timer.queued == s.timer.queued[k..] && r.timer.handler == Timer.CallingBack(now, k)
  {
    var s1 := s.(timer := s.timer.(clock := s.timer.clock + wait));
    LeadsTimer(s, Timer.Tick(wait), s1.timer);
    var s2 := s1.(timer := s1.timer.(alarm := None, expired := true));
    LeadsTimer(s1, Timer.Expire, s2.timer);
    LeadsOn(Next, s, [TimerStep(Timer.Tick(wait))], s1, [TimerStep(Timer.Expire)], s2);
    var s3 := s2.(timer := s2.timer.(handler := Timer.Delivered));
    LeadsTimer(s2, Timer.Deliver, s3.timer);
    var s4 := s3.(timer := s3.timer.(handler := Timer.Reading));
    LeadsTimer(s3, Timer.LockRead, s4.timer);
    LeadsOn(Next, s2, [TimerStep(Timer.Deliver)], s3, [TimerStep(Timer.LockRead)], s4);
    r := s4.(timer := Timer.Drained(s4.timer));
    LeadsTimer(s4, Timer.Drain, r.timer);
    steps := [TimerStep(Timer.Tick(wait))] + [TimerStep(Timer.Expire)];
    var more := [TimerStep(Timer.Deliver)] + [TimerStep(Timer.LockRead)];
    LeadsOn(Next, s, steps, s2, more, s4);
    steps := steps + more;
    LeadsOn(Next, s, steps, s4, [TimerStep(Timer.Drain)], r);
    steps := steps + [TimerStep(Timer.Drain)];
  }

  /** A callback finds a valid socket and sends. */
  lemma CallBack(s: State) returns (steps: seq<Label>, r: State)
    requires s.pushing.None? && s.calling.NoCall? && s.attached && s.pending != []
    requires s.timer.handler.CallingBack? && s.timer.handler.owed > 0
    ensures Leads(Next, s, steps, r)
    ensures r == s.(timer := r.timer, pending := s.pending[1..],
                    departed := s.departed + [Departure(s.pending[0].payload, s.pending[0].due, s.timer.Now(), true)])
    ensures Timer.Next(s.timer, Timer.Callback) == Some(r.timer)
  {
    var s1, s2 := s.(calling := Compared(true)), s.(calling := Tested(true));
    LeadsOne(Next, s, Compare, s1);
    LeadsOneMore(Next, s, [Compare], s1, Test(true), s2);
    r := Departed(s2);
    steps := [Compare] + [Test(true)];
    LeadsOneMore(Next, s, steps, s2, OnTimeEvent, r);
    steps := steps + [OnTimeEvent];
  }

  /** A message is scheduled, and no time passes meanwhile. */
  lemma ScheduleOne(s: State, delay: nat) returns (steps: seq<Label>, r: State)
    requires s.pushing.None? && s.calling.NoCall? && s.timer.Unlocked()
    ensures Leads(Next, s, steps, r) && r == DeadlineSet(Pushed(s, 0, delay), delay, 0)
  {
    var q := Pushed(s, 0, delay);
    r := DeadlineSet(q, delay, 0);
    LeadsOne(Next, s, Push(0, delay), q);
    LeadsOne(Next, q, SetDeadline(0), r);
    LeadsOn(Next, s, [Push(0, delay)], q, [SetDeadline(0)], r);
    steps := [Push(0, delay)] + [SetDeadline(0)];
  }

  /** Nothing is waiting, and a millisecond has just begun. */
  predicate Rested(s: State) {
    && s.timer.open && s.timer.queued == [] && s.timer.handler.NoEvent? && s.timer.clock % Timer.NS_PER_MS == 0
    && s.pending == [] && s.pushing.None? && s.calling.NoCall? && s.attached
  }

  lemma NowAfter(clock: nat, delay: nat)
    requires clock % Timer.NS_PER_MS == 0
    ensures (clock + Timer.TimerValue(delay)) / Timer.NS_PER_MS == clock / Timer.NS_PER_MS + delay
  {
    assert clock == clock / Timer.NS_PER_MS * Timer.NS_PER_MS;
  }

  lemma InsertOne(x: int)
    ensures Timer.Insert([], x) == [x] && Timer.InsertsFirst([], x)
  {
  }

  lemma InsertBefore(x: int, y: int)
    requires x < y
    ensures Timer.Insert([y], x) == [x, y] && Timer.InsertsFirst([y], x)
  {
  }

  lemma RestedSchedules(s: State, delay: nat) returns (steps: seq<Label>, r: State)
    requires Rested(s)
    ensures Leads(Next, s, steps, r)
    ensures var due := s.timer.Now() + delay;
            && r.timer.queued == [due] && r.pending == [Pending(0, Some(due))]
            && r.timer.alarm == Some(s.timer.clock + Timer.TimerValue(delay)) && r.delays == s.delays + [delay]
            && r.timer.open && r.timer.clock == s.timer.clock && r.timer.handler == s.timer.handler
            && r.pushing.None? && r.calling.NoCall? && r.attached && r.departed == s.departed
  {
    steps, r := ScheduleOne(s, delay);
    InsertOne(s.timer.Now() + delay);
  }

  /** Behind the last callback of a batch that left nothing queued, the handler rests. */
  lemma RestAgain(s: State) returns (steps: seq<Label>, r: State)
    requires s.timer.open && s.timer.queued == [] && s.timer.handler.CallingBack? && s.timer.handler.owed == 0
    requires s.pending == [] && s.pushing.None? && s.calling.NoCall? && s.attached
    ensures Leads(Next, s, steps, r) && Rested(r) && r.delays == s.delays
  {
    var q := s.(timer := Timer.Finished(s.timer));
    LeadsTimer(s, Timer.Finish, q.timer);
    var pad := Timer.NS_PER_MS - q.timer.clock % Timer.NS_PER_MS;
    r := q.(timer := q.timer.(clock := q.timer.clock + pad));
    LeadsTimer(q, Timer.Tick(pad), r.timer);
    LeadsOn(Next, s, [TimerStep(Timer.Finish)], q, [TimerStep(Timer.Tick(pad))], r);
    steps := [TimerStep(Timer.Finish)] + [TimerStep(Timer.Tick(pad))];
  }

  /** One message on its own comes and goes. */
  lemma PassOne(s: State, delay: nat) returns (steps: seq<Label>, r: State)
    requires Rested(s)
    ensures Leads(Next, s, steps, r) && Rested(r) && r.delays == s.delays + [delay]
  {
    var s1, s2, more;
    steps, s1 := RestedSchedules(s, delay);
    more, s2 := WakeUp(s1, Timer.TimerValue(delay));
    LeadsOn(Next, s, steps, s1, more, s2);
    steps := steps + more;
    NowAfter(s.timer.clock, delay);
    Timer.CountDueIs([s.timer.Now() + delay], s2.timer.handler.now, 1);
    var s3;
    more, s3 := CallBack(s2);
    LeadsOn(Next, s, steps, s2, more, s3);
    steps := steps + more;
    more, r := RestAgain(s3);
    LeadsOn(Next, s, steps, s3, more, r);
    steps := steps + more;
  }

  lemma {:induction false} PassMany(s: State, ds: seq<nat>) returns (steps: seq<Label>, r: State)
    requires Rested(s)
    ensures Leads(Next, s, steps, r) && Rested(r) && r.delays == s.delays + ds
    decreases |ds|
  {
    steps, r := [], s;
    if ds != [] {
      var q, more;
      steps, q := PassOne(s, ds[0]);
      more, r := PassMany(q, ds[1..]);
      LeadsOn(Next, s, steps, q, more, r);
      steps := steps + more;
      assert s.delays + [ds[0]] + ds[1..] == s.delays + ds;
    }
  }

  /** A message is followed by one with a lower delay: the timer goes off for the second,
      and the callback sends the first. */
  lemma SendEarly(s: State, delay: nat, lower: nat) returns (steps: seq<Label>, r: State)
    requires Rested(s) && lower < delay
    ensures Leads(Next, s, steps, r) && r.delays == s.delays + [delay, lower]
    ensures |r.departed| == |s.departed| + 1
    ensures var d := r.departed[|s.departed|]; d.sent && d.due == Some(d.at + (delay - lower))
  {
    var q, more;
    steps, q := SchedulePair(s, delay, lower);
    NowAfter(s.timer.clock, lower);
    more, r := FirstLeaves(q, s.timer.Now() + lower, s.timer.Now() + delay, Timer.TimerValue(lower));
    LeadsOn(Next, s, steps, q, more, r);
    steps := steps + more;
  }

  lemma SchedulePair(s: State, delay: nat, lower: nat) returns (steps: seq<Label>, r: State)
    requires Rested(s) && lower < delay
    ensures Leads(Next, s, steps, r) && r.delays == s.delays + [delay, lower]
    ensures r.timer.queued == [s.timer.Now() + lower, s.timer.Now() + delay]
    ensures r.pending == [Pending(0, Some(s.timer.Now() + delay)), Pending(0, Some(s.timer.Now() + lower))]
    ensures r.timer.alarm == Some(s.timer.clock + Timer.TimerValue(lower)) && r.timer.clock == s.timer.clock
    ensures r.timer.handler.NoEvent? && r.pushing.None? && r.calling.NoCall? && r.attached && r.departed == s.departed
  {
    var q, more;
    steps, q := RestedSchedules(s, delay);
    more, r := ScheduleOne(q, lower);
    LeadsOn(Next, s, steps, q, more, r);
    steps := steps + more;
    InsertBefore(s.timer.Now() + lower, s.timer.Now() + delay);
  }

  /** The timer goes off for the deadline `due` of the second message of the list. */
  lemma FirstLeaves(s: State, due: int, later: int, wait: nat) returns (steps: seq<Label>, r: State)
    requires due < later && s.timer.queued == [due, later]
    requires s.pending == [Pending(0, Some(later)), Pending(0, Some(due))]
    requires s.timer.alarm == Some(s.timer.clock + wait) && (s.timer.clock + wait) / Timer.NS_PER_MS == due
    requires s.timer.handler.NoEvent? && s.pushing.None? && s.calling.NoCall? && s.attached
    ensures Leads(Next, s, steps, r) && r.delays == s.delays
    ensures r.departed == s.departed + [Departure(0, Some(later), due, true)]
  {
    var q, more;
    steps, q := WakeUp(s, wait);
    Timer.CountDueIs(s.timer.queued, due, 1);
    more, r := CallBack(q);
    LeadsOn(Next, s, steps, q, more, r);
    steps := steps + more;
  }

  lemma {:induction false} SomeDescent(ds: seq<nat>) returns (k: nat)
    requires !NonDecreasing(ds)
    ensures k + 1 < |ds| && ds[k + 1] < ds[k]
    decreases |ds|
  {
    var n := |ds| - 1;
    assert ds == ds[..n] + [ds[n]];
    NonDecreasingLast(ds[..n], ds[n]);
    if NonDecreasing(ds[..n]) {
      k := n - 1;
    } else {
      k := SomeDescent(ds[..n]);
    }
  }

  /** Where the delays `ds` handed to the sender are lowered somewhere, some run sends a
      message early. */
  lemma LoweredDelaySendsEarly(ds: seq<nat>) returns (steps: seq<Label>, r: State)
    requires !NonDecreasing(ds)
    ensures Leads(Next, Init(0), steps, r) && r.delays <= ds && !LeftOnTime(r.departed)
  {
    var k := SomeDescent(ds);
    var q, more;
    steps, q := PassMany(Init(0), ds[..k]);
    more, r := SendEarly(q, ds[k], ds[k + 1]);
    LeadsOn(Next, Init(0), steps, q, more, r);
    steps := steps + more;
    assert ds[..k] + [ds[k], ds[k + 1]] == ds[..k + 2];
    assert r.departed[|q.departed|].due.value > r.departed[|q.departed|].at;
  }

  /** No run that schedules with these delays sends a message before its deadline. */
  ghost predicate NeverEarly(ds: seq<nat>) {
    forall clock, steps ::
      var r := Run(Next, Init(clock), steps);
      r.Some? && r.value.delays <= ds ==> LeftOnTime(r.value.departed)
  }

  /** Exactly the delays that are never lowered are safe. */
  lemma NeverEarlyIffNonDecreasing(ds: seq<nat>)
    ensures NeverEarly(ds) <==> NonDecreasing(ds)
  {
    if NonDecreasing(ds) {
      forall clock, steps | Run(Next, Init(clock), steps).Some? && Run(Next, Init(clock), steps).value.delays <= ds
        ensures LeftOnTime(Run(Next, Init(clock), steps).value.departed)
      {
        UnloweredDelaysArePunctual(clock, steps);
      }
    } else {
      var steps, r := LoweredDelaySendsEarly(ds);
      assert Run(Next, Init(0), steps) == Some(r);
    }
  }

  // ---------------------------------------------------------------- the object

  predicate Initial(s: State) { s == Init(s.timer.clock) }

  ghost predicate Reachable(s: State) {
    Reaches(Next, Initial, s)
  }

  lemma ReachableStep(s: State, l: Label, r: State)
    requires Reachable(s) && Next(s, l) == Some(r)
    ensures Reachable(r)
  {
    LeadsOne(Next, s, l, r);
    ReachableOn(Next, Initial, s, [l], r);
  }

  lemma ReachableCoupled(s: State)
    requires Reachable(s)
    ensures Timer.Owed(s.timer.handler) > 0 ==> s.pending != []
  {
    var s0, steps :| Initial(s0) && Leads(Next, s0, steps, s);
    CallbackFindsMessage(s0.timer.clock, steps);
  }

  /** Scheduling a message, undisturbed, is a run. */
  lemma ReachableSchedule(s: State, payload: Payload, delay: nat, lag: nat)
    requires Reachable(s) && s.pushing.None? && s.calling.NoCall? && s.timer.Unlocked()
    ensures var r := DeadlineSet(Pushed(s, payload, delay), delay, lag);
            && Reachable(r) && r.timer == Timer.Scheduled(s.timer, delay, lag)
            && r.pending == s.pending + [Pending(payload, if s.timer.open then Some(s.timer.Now() + delay) else None)]
            && Payloads(r.pending) == Payloads(s.pending) + [payload]
            && r.scheduled == s.scheduled + [payload] && r.delays == s.delays + [delay]
            && r.pushing.None? && r.calling.NoCall? && r.attached == s.attached
  {
    var q := Pushed(s, payload, delay);
    ReachableStep(s, Push(payload, delay), q);
    ReachableStep(q, SetDeadline(lag), DeadlineSet(q, delay, lag));
  }

  /** The state in which a callback that nobody disturbs decides. */
  function Decision(s: State, socketValid: bool): State {
    s.(calling := if s.attached then Tested(socketValid) else Compared(false))
  }

  lemma ReachableDeparture(s: State, socketValid: bool)
    requires Reachable(s) && s.pushing.None? && s.calling.NoCall?
    requires s.timer.handler.CallingBack? && s.timer.handler.owed > 0
    ensures s.pending != [] && Timer.Next(s.timer, Timer.Callback).Some?
    ensures var r := Departed(Decision(s, socketValid));
            && Reachable(r) && r.timer == Timer.Next(s.timer, Timer.Callback).value
            && |Payloads(s.pending)| > 0 && Payloads(r.pending) == Payloads(s.pending)[1..]
            && r.attached == s.attached && r.pushing.None? && r.calling.NoCall? && r.nullUse == s.nullUse
            && r.departed == s.departed + [Departure(Payloads(s.pending)[0], s.pending[0].due, s.timer.Now(),
                                                     s.attached && socketValid)]
  {
    ReachableCoupled(s);
    var q := s.(calling := Compared(s.attached));
    ReachableStep(s, Compare, q);
    if s.attached {
      ReachableStep(q, Test(socketValid), Decision(s, socketValid));
    }
    ReachableStep(Decision(s, socketValid), OnTimeEvent, Departed(Decision(s, socketValid)));
  }

  /** The sender with its timer; `history` is the state of the transition system it is in. */
  class DelayedMessageSender {
    const timer: Timer.TimeEventListener
    var pendingMessages: seq<Payload>
    var attached: bool
    ghost var history: State

    ghost predicate Valid()
      reads this, timer
    {
      && timer.Valid() && history.timer == timer.history
      && Payloads(history.pending) == pendingMessages && history.attached == attached
      && history.pushing.None? && history.calling.NoCall? && Reachable(history)
    }

    constructor (timer: Timer.TimeEventListener, ghost clock: nat)
      requires timer.Valid() && timer.history == Timer.Init(clock)
      ensures Valid() && this.timer == timer && pendingMessages == [] && attached
    {
      this.timer, pendingMessages, attached := timer, [], true;
      history := Init(clock);
      new;
      InitialIsReachable(Next, Initial, history);
    }

    /** Appends the message and schedules an event for it. */
    method Schedule(payload: Payload, delay: nat, lag: nat)
      requires Valid() && timer.history.Unlocked()
      modifies this, timer
      ensures Valid() && pendingMessages == old(pendingMessages) + [payload]
      ensures history.scheduled == old(history.scheduled) + [payload] && history.delays == old(history.delays) + [delay]
      ensures history.pending == old(history.pending)
                                 + [Pending(payload,
                                            if old(timer.fd) >= 0 then Some(old(timer.clock) / Timer.NS_PER_MS + delay)
                                            else None)]
      ensures old(timer.fd) >= 0 ==>
                Timer.EventInserted(old(timer.queuedEvents), old(timer.clock), old(timer.alarm), old(timer.expired),
                                    delay, lag, timer.queuedEvents, timer.clock, timer.alarm, timer.expired)
    {
      ghost var s0 := history;
      ReachableSchedule(s0, payload, delay, lag);
      pendingMessages := pendingMessages + [payload];
      var _ := timer.Schedule(delay, lag);
      history := DeadlineSet(Pushed(s0, payload, delay), delay, lag);
    }

    /** Sends the first message of the list, which is there, or discards it if there is no
        socket any more. */
    method OnTimeEvent(socketValid: bool) returns (sent: Option<Payload>)
      requires Valid() && timer.history.handler.CallingBack? && timer.history.handler.owed > 0
      modifies this, timer`history
      ensures Valid() && old(pendingMessages) != [] && pendingMessages == old(pendingMessages)[1..]
      ensures sent == if old(attached) && socketValid then Some(old(pendingMessages)[0]) else None
      ensures timer.history.handler.CallingBack? && timer.history.handler.owed == old(timer.history.handler.owed) - 1
      ensures history.departed == old(history.departed)
                                  + [Departure(old(pendingMessages)[0], old(history.pending)[0].due,
                                               timer.clock / Timer.NS_PER_MS, sent.Some?)]
    {
      ghost var s0 := history;
      ReachableDeparture(s0, socketValid);
      sent := if attached && socketValid then Some(pendingMessages[0]) else None;
      pendingMessages := pendingMessages[1..];
      timer.OnTimeEvent();
      history := Departed(Decision(s0, socketValid));
    }

    /** Lets go of the socket, then closes the timer. */
    method CloseSocket()
      requires Valid() && timer.history.Unlocked()
      modifies this, timer
      ensures Valid() && !attached && timer.fd < 0 && pendingMessages == old(pendingMessages)
    {
      ghost var s0 := history;
      attached := false;
      ghost var s1 := s0.(attached := false);
      ReachableStep(s0, Detach, s1);
      timer.CloseSocket();
      history := s1.(timer := timer.history);
      ReachableStep(s1, TimerStep(Timer.CloseTimer), history);
    }
  }
}
