/** The timer listener: any number of deadlines on one one-shot timer descriptor.  The
    handler drains what is due, calls back without the lock, and re-arms the timer;
    other threads, and the callbacks, schedule in between. */
module Timer {
  import opened Runs

  const NS_PER_MS: nat := 1_000_000
  const NS_PER_S: nat := 1_000_000_000

  // ---------------------------------------------------------------- ordered multisets

  /** A `std::multiset` is the sorted sequence of its elements. */
  predicate Sorted(s: seq<int>) {
    forall i, j :: 0 <= i < j < |s| ==> s[i] <= s[j]
  }

  /** How often `d` occurs in `s`. */
  function Times(s: seq<int>, d: int): nat {
    if s == [] then 0 else (if s[0] == d then 1 else 0) + Times(s[1..], d)
  }

  lemma {:induction false} TimesAppend(a: seq<int>, b: seq<int>, d: int)
    ensures Times(a + b, d) == Times(a, d) + Times(b, d)
    decreases |a|
  {
    if a == [] {
      assert a + b == b;
    } else {
      assert (a + b)[1..] == a[1..] + b;
      TimesAppend(a[1..], b, d);
    }
  }

  lemma {:induction false} TimesIsMultiplicity(s: seq<int>, d: int)
    ensures multiset(s)[d] == Times(s, d)
    decreases |s|
  {
    if s != [] {
      TimesIsMultiplicity(s[1..], d);
      assert s == [s[0]] + s[1..];
    }
  }

  /** Where `insert` puts an element: behind those that are equal to it. */
  function UpperBound(s: seq<int>, x: int): (i: nat)
    ensures i <= |s|
    ensures i == 0 <==> s == [] || x < s[0]
  {
    if s == [] || x < s[0] then 0 else 1 + UpperBound(s[1..], x)
  }

  lemma {:induction false} UpperBoundSplits(s: seq<int>, x: int)
    requires Sorted(s)
    ensures forall k :: 0 <= k < UpperBound(s, x) ==> s[k] <= x
    ensures forall k :: UpperBound(s, x) <= k < |s| ==> x < s[k]
    decreases |s|
  {
    if s != [] && s[0] <= x {
      var rest := s[1..];
      UpperBoundSplits(rest, x);
      assert forall k :: 0 < k < |s| ==> s[k] == rest[k - 1];
    }
  }

  /** There was nothing before, or nothing that is not later. */
  predicate InsertsFirst(s: seq<int>, x: int) {
    s == [] || UpperBound(s, x) == 0
  }

  function Insert(s: seq<int>, x: int): seq<int> {
    var i := UpperBound(s, x);
    s[..i] + [x] + s[i..]
  }

  /** Inserting adds one occurrence, keeps the order, and changes the first element
      exactly when the new one is smaller. */
  lemma InsertAdds(s: seq<int>, x: int, d: int)
    ensures Times(Insert(s, x), d) == Times(s, d) + Times([x], d)
  {
    var i := UpperBound(s, x);
    TimesAppend(s[..i] + [x], s[i..], d);
    TimesAppend(s[..i], [x], d);
    TimesAppend(s[..i], s[i..], d);
    assert s == s[..i] + s[i..];
  }

  lemma InsertSorted(s: seq<int>, x: int)
    requires Sorted(s)
    ensures Sorted(Insert(s, x))
    ensures Insert(s, x)[0] == if s == [] || x < s[0] then x else s[0]
  {
    var i, r := UpperBound(s, x), Insert(s, x);
    UpperBoundSplits(s, x);
    assert forall k :: 0 <= k < |r| ==> r[k] == if k < i then s[k] else if k == i then x else s[k - 1];
  }

  /** How many of the deadlines, earliest first, have passed. */
  function CountDue(s: seq<int>, now: int): (k: nat)
    ensures k <= |s|
    ensures forall i :: 0 <= i < k ==> s[i] <= now
    ensures k < |s| ==> now < s[k]
  {
    if s == [] || now < s[0] then 0 else 1 + CountDue(s[1..], now)
  }

  // ---------------------------------------------------------------- state

  /** A delay in milliseconds as the kernel gets it: seconds and nanoseconds, and one
      nanosecond instead of zero, which would disarm the timer. */
  function TimerValue(delay: nat): (ns: nat)
    ensures ns > 0 && ns >= delay * NS_PER_MS
    ensures delay > 0 ==> ns == delay * NS_PER_MS
  {
    if delay == 0 then 1
    else
      var sec, nsec := delay / 1000, delay % 1000 * 1_000_000;
      sec * 1_000_000_000 + nsec
  }

  /** The handler: no event, event delivered, blocked in read with the lock held, or
      calling back without the lock, having read the time as `now`. */
  datatype Handler = NoEvent | Delivered | Reading | CallingBack(now: int, owed: nat)

  datatype Firing = Firing(deadline: int, at: int)

  datatype State = State(
    open: bool,                // m_fd >= 0
    queued: seq<int>,          // m_queued_events
    clock: nat,                // nanoseconds
    alarm: Option<nat>,        // when the armed timer expires
    expired: bool,             // it has expired and not been read
    handler: Handler,
    readAt: nat,               // history: when the handler last read the clock
    late: nat,                 // and how long before the timer was last set the clock was read
    accepted: seq<int>,        // history: deadlines scheduled, fired and cleared, callbacks made
    fired: seq<Firing>,
    cleared: seq<int>,
    callbacks: nat)
  {
    /** What `get_current_time` returns. */
    function Now(): nat { clock / NS_PER_MS }

    /** `internal_schedule`: setting the timer also forgets an unread expiration.  The delay
        was worked out from the time at `since`. */
    function Arm(delay: nat, since: nat): State {
      this.(alarm := Some(clock + TimerValue(delay)), expired := false,
            late := if since <= clock then clock - since else 0)
    }

    /** Nobody is inside a critical section. */
    predicate Unlocked() { !handler.Reading? }
  }

  datatype Label =
    | Schedule(delay: nat, lag: nat)   // `lag` passes between reading the clock and setting the timer
    | Unschedule
    | CloseTimer
    | Tick(ns: nat)
    | Expire
    | Deliver
    | LockRead
    | Drain
    | Callback
    | Finish

  function Init(clock: nat): State {
    State(true, [], clock, None, false, NoEvent, clock, 0, [], [], [], 0)
  }

  function Scheduled(s: State, delay: nat, lag: nat): State {
    if !s.open then s
    else
      var start := s.Now() + delay;
      var r := s.(queued := Insert(s.queued, start), accepted := s.accepted + [start], clock := s.clock + lag);
      if InsertsFirst(s.queued, start) then r.Arm(delay, s.clock) else r
  }

  function Firings(deadlines: seq<int>, now: int): (r: seq<Firing>)
    ensures |r| == |deadlines|
    ensures forall i :: 0 <= i < |r| ==> r[i] == Firing(deadlines[i], now)
  {
    seq(|deadlines|, i requires 0 <= i < |deadlines| => Firing(deadlines[i], now))
  }

  /** Reading the timer and taking out everything that is due. */
  function Drained(s: State): State {
    var now := s.Now();
    var k := CountDue(s.queued, now);
    s.(expired := false, queued := s.queued[k..], fired := s.fired + Firings(s.queued[..k], now),
       handler := CallingBack(now, k), readAt := s.clock)
  }

  /** The test behind the callbacks that gives up on a deadline before `now`. */
  predicate FinishAborts(s: State) {
    s.handler.CallingBack? && s.open && s.queued != [] && s.queued[0] < s.handler.now
  }

  function Finished(s: State): State
    requires s.handler.CallingBack? && !FinishAborts(s)
  {
    (if s.queued != [] && s.open then s.Arm(s.queued[0] - s.handler.now, s.readAt) else s).(handler := NoEvent)
  }

  /** The read of a closed descriptor fails, and the program gives up. */
  predicate ReadFails(s: State) {
    s.handler.Reading? && !s.open
  }

  function Next(s: State, l: Label): Option<State> {
    match l
    case Schedule(delay, lag) => if s.Unlocked() then Some(Scheduled(s, delay, lag)) else None
    case Unschedule =>
      if s.Unlocked() then Some(s.(queued := [], cleared := s.cleared + s.queued)) else None
    case CloseTimer =>
      if s.Unlocked() then Some(s.(open := false, alarm := None, expired := false)) else None
    case Tick(ns) => Some(s.(clock := s.clock + ns))
    case Expire =>
      if s.alarm.Some? && s.alarm.value <= s.clock then Some(s.(alarm := None, expired := true)) else None
    case Deliver => if s.expired && s.handler.NoEvent? then Some(s.(handler := Delivered)) else None
    case LockRead => if s.handler.Delivered? then Some(s.(handler := Reading)) else None
    case Drain => if s.handler.Reading? && s.expired then Some(Drained(s)) else None
    case Callback =>
      if s.handler.CallingBack? && s.handler.owed > 0
      then Some(s.(handler := CallingBack(s.handler.now, s.handler.owed - 1), callbacks := s.callbacks + 1)) else None
    case Finish =>
      if s.handler.CallingBack? && s.handler.owed == 0 && !FinishAborts(s) then Some(Finished(s)) else None
  }

  // ---------------------------------------------------------------- invariant

  /** A deadline in the queue is covered: the timer is armed or has expired unread, never
      before the earliest deadline, unless the handler is still to re-arm it. */
  predicate Covered(s: State) {
    && Sorted(s.queued)
    && (s.open && s.queued != [] && !s.handler.CallingBack? ==> s.alarm.Some? || s.expired)
    && (s.queued != [] && s.alarm.Some? ==> s.alarm.value >= s.queued[0] * NS_PER_MS)
    && (s.queued != [] && s.expired ==> s.Now() >= s.queued[0])
    && (s.expired ==> s.alarm.None?)
    && (!s.open ==> s.alarm.None? && !s.expired)
  }

  /** The handler that has been told of an event will be able to read it, unless the
      descriptor is closed first. */
  predicate HandlerOk(s: State) {
    && (s.open && (s.handler.Delivered? || s.handler.Reading?) ==> s.alarm.Some? || s.expired)
    && (s.handler.CallingBack? ==>
          && s.readAt <= s.clock && s.handler.now == s.readAt / NS_PER_MS <= s.Now()
          && (s.queued != [] ==> s.handler.now <= s.queued[0]))
  }

  function Deadlines(fired: seq<Firing>): (r: seq<int>)
    ensures |r| == |fired|
  {
    seq(|fired|, i requires 0 <= i < |fired| => fired[i].deadline)
  }

  /** Callbacks still to be made for the deadlines taken out. */
  function Owed(h: Handler): nat {
    if h.CallingBack? then h.owed else 0
  }

  ghost predicate Balanced(accepted: seq<int>, fired: seq<int>, cleared: seq<int>, queued: seq<int>) {
    forall d :: Times(accepted, d) == Times(fired, d) + Times(cleared, d) + Times(queued, d)
  }

  /** Every accepted deadline has fired, was cleared or is queued; none fired early; one
      callback for each that fired. */
  ghost predicate Conserved(s: State) {
    && Balanced(s.accepted, Deadlines(s.fired), s.cleared, s.queued)
    && (forall i :: 0 <= i < |s.fired| ==> s.fired[i].deadline <= s.fired[i].at)
    && |s.fired| == s.callbacks + Owed(s.handler)
  }

  /** An armed timer expires by the end of the millisecond of the earliest deadline, plus the
      time that passed between reading the clock and setting it. */
  predicate Prompt(s: State) {
    s.queued != [] && s.alarm.Some? ==> s.alarm.value <= (s.queued[0] + 1) * NS_PER_MS + s.late
  }

  ghost predicate Inv(s: State) {
    Covered(s) && HandlerOk(s) && Conserved(s) && Prompt(s)
  }

  lemma BalancedAfterSchedule(accepted: seq<int>, fired: seq<int>, cleared: seq<int>, queued: seq<int>, x: int)
    requires Balanced(accepted, fired, cleared, queued)
    ensures Balanced(accepted + [x], fired, cleared, Insert(queued, x))
  {
    forall d ensures Times(accepted + [x], d) == Times(fired, d) + Times(cleared, d) + Times(Insert(queued, x), d) {
      TimesAppend(accepted, [x], d);
      InsertAdds(queued, x, d);
    }
  }

  lemma BalancedAfterDrain(accepted: seq<int>, fired: seq<int>, cleared: seq<int>, queued: seq<int>, k: nat)
    requires Balanced(accepted, fired, cleared, queued) && k <= |queued|
    ensures Balanced(accepted, fired + queued[..k], cleared, queued[k..])
  {
    assert queued == queued[..k] + queued[k..];
    forall d ensures Times(accepted, d) == Times(fired + queued[..k], d) + Times(cleared, d) + Times(queued[k..], d) {
      TimesAppend(fired, queued[..k], d);
      TimesAppend(queued[..k], queued[k..], d);
    }
  }

  lemma BalancedAfterClear(accepted: seq<int>, fired: seq<int>, cleared: seq<int>, queued: seq<int>)
    requires Balanced(accepted, fired, cleared, queued)
    ensures Balanced(accepted, fired, cleared + queued, [])
  {
    forall d ensures Times(accepted, d) == Times(fired, d) + Times(cleared + queued, d) + Times([], d) {
      TimesAppend(cleared, queued, d);
    }
  }

  /** Which is to say that the multisets add up. */
  lemma BalancedMultisets(accepted: seq<int>, fired: seq<int>, cleared: seq<int>, queued: seq<int>)
    requires Balanced(accepted, fired, cleared, queued)
    ensures multiset(accepted) == multiset(fired) + multiset(cleared) + multiset(queued)
  {
    forall d ensures multiset(accepted)[d] == (multiset(fired) + multiset(cleared) + multiset(queued))[d] {
      TimesIsMultiplicity(accepted, d);
      TimesIsMultiplicity(fired, d);
      TimesIsMultiplicity(cleared, d);
      TimesIsMultiplicity(queued, d);
    }
  }

  lemma ScheduleChanges(s: State, delay: nat, lag: nat, r: State)
    requires s.open && r == Scheduled(s, delay, lag)
    ensures r.queued == Insert(s.queued, s.Now() + delay) && r.accepted == s.accepted + [s.Now() + delay]
    ensures r.cleared == s.cleared && r.fired == s.fired && r.callbacks == s.callbacks && r.handler == s.handler
  {
  }

  lemma ScheduleConserves(s: State, delay: nat, lag: nat, r: State)
    requires Conserved(s) && r == Scheduled(s, delay, lag)
    ensures Conserved(r)
  {
    if s.open {
      ScheduleChanges(s, delay, lag, r);
      BalancedAfterSchedule(s.accepted, Deadlines(s.fired), s.cleared, s.queued, s.Now() + delay);
      ConservedBy(r, r.accepted, Deadlines(s.fired), r.cleared, r.queued);
    }
  }

  lemma ConservedBy(s: State, accepted: seq<int>, fired: seq<int>, cleared: seq<int>, queued: seq<int>)
    requires Balanced(accepted, fired, cleared, queued)
    requires s.accepted == accepted && Deadlines(s.fired) == fired && s.cleared == cleared && s.queued == queued
    requires forall i :: 0 <= i < |s.fired| ==> s.fired[i].deadline <= s.fired[i].at
    requires |s.fired| == s.callbacks + Owed(s.handler)
    ensures Conserved(s)
  {
  }

  lemma DrainConserves(s: State, r: State)
    requires Conserved(s) && s.handler.Reading? && r == Drained(s)
    ensures Conserved(r)
  {
    var k := CountDue(s.queued, s.Now());
    assert Deadlines(r.fired) == Deadlines(s.fired) + s.queued[..k];
    assert forall i :: 0 <= i < |r.fired| ==> r.fired[i].deadline <= r.fired[i].at;
    BalancedAfterDrain(s.accepted, Deadlines(s.fired), s.cleared, s.queued, k);
    ConservedBy(r, s.accepted, Deadlines(s.fired) + s.queued[..k], s.cleared, s.queued[k..]);
  }

  lemma OtherStepsConserve(s: State, l: Label, r: State)
    requires Next(s, l) == Some(r) && !l.Schedule? && !l.Drain?
    ensures r.fired == s.fired && r.accepted == s.accepted
    ensures if l.Unschedule? then r.queued == [] && r.cleared == s.cleared + s.queued
            else r.queued == s.queued && r.cleared == s.cleared
    ensures r.callbacks + Owed(r.handler) == s.callbacks + Owed(s.handler)
  {
  }

  lemma StepConserves(s: State, l: Label, r: State)
    requires Conserved(s) && Next(s, l) == Some(r)
    ensures Conserved(r)
  {
    if l.Schedule? {
      ScheduleConserves(s, l.delay, l.lag, r);
    } else if l.Drain? {
      DrainConserves(s, r);
    } else {
      OtherStepsConserve(s, l, r);
      BalancedAfterClear(s.accepted, Deadlines(s.fired), s.cleared, s.queued);
    }
  }

  lemma NowGrows(a: nat, b: nat)
    requires a <= b
    ensures a / NS_PER_MS <= b / NS_PER_MS
    ensures a / NS_PER_MS * NS_PER_MS <= a < (a / NS_PER_MS + 1) * NS_PER_MS
  {
  }

  /** A timer that is set for the delay up to `due`, as it is seen from the time at `since`,
      expires by the end of that millisecond but for what passed meanwhile. */
  lemma ArmedPrompt(since: nat, clock: nat, due: int)
    requires since <= clock && since / NS_PER_MS <= due
    ensures clock + TimerValue(due - since / NS_PER_MS) <= (due + 1) * NS_PER_MS + (clock - since)
  {
    NowGrows(since, clock);
  }

  lemma SchedulePrompt(s: State, delay: nat, lag: nat)
    requires Covered(s) && Prompt(s) && s.open
    ensures Prompt(Scheduled(s, delay, lag))
  {
    var start := s.Now() + delay;
    ArmedPrompt(s.clock, s.clock + lag, start);
    InsertSorted(s.queued, start);
    FirstIffEarlier(s.queued, start);
  }

  lemma FirstIffEarlier(q: seq<int>, x: int)
    ensures InsertsFirst(q, x) <==> q == [] || x < q[0]
  {
  }

  lemma FinishPrompt(s: State)
    requires HandlerOk(s) && Prompt(s) && s.handler.CallingBack? && !FinishAborts(s)
    ensures Prompt(Finished(s))
  {
    if s.queued != [] && s.open {
      ArmedPrompt(s.readAt, s.clock, s.queued[0]);
    }
  }

  lemma StepPrompt(s: State, l: Label, r: State)
    requires Covered(s) && HandlerOk(s) && Prompt(s) && Next(s, l) == Some(r)
    ensures Prompt(r)
  {
    match l
    case Schedule(delay, lag) => if s.open { SchedulePrompt(s, delay, lag); }
    case Finish => FinishPrompt(s);
    case _ =>
  }

  /** A deadline is added, and the timer set if the deadline is now the earliest. */
  ghost predicate EventInserted(
      queued: seq<int>, clock: nat, alarm: Option<nat>, expired: bool, delay: nat, lag: nat,
      queued': seq<int>, clock': nat, alarm': Option<nat>, expired': bool)
  {
    var start := clock / NS_PER_MS + delay;
    && queued' == Insert(queued, start) && clock' == clock + lag
    && if InsertsFirst(queued, start) then alarm' == Some(clock' + TimerValue(delay)) && !expired'
       else alarm' == alarm && expired' == expired
  }

  lemma ScheduledInserts(s: State, delay: nat, lag: nat)
    requires s.open
    ensures var r := Scheduled(s, delay, lag);
            r.open && r.handler == s.handler && r.readAt == s.readAt && EventInserted(
              s.queued, s.clock, s.alarm, s.expired, delay, lag, r.queued, r.clock, r.alarm, r.expired)
  {
  }

  lemma InsertedCovers(s: State, delay: nat, lag: nat, r: State)
    requires Covered(s) && s.open && r.open
    requires EventInserted(s.queued, s.clock, s.alarm, s.expired, delay, lag, r.queued, r.clock, r.alarm, r.expired)
    requires r.handler == s.handler
    ensures Covered(r)
  {
    NowGrows(s.clock, r.clock);
    InsertSorted(s.queued, s.Now() + delay);
  }

  lemma InsertedHandler(s: State, delay: nat, lag: nat, r: State)
    requires Covered(s) && HandlerOk(s) && s.open && r.open
    requires EventInserted(s.queued, s.clock, s.alarm, s.expired, delay, lag, r.queued, r.clock, r.alarm, r.expired)
    requires r.handler == s.handler && r.readAt == s.readAt
    ensures HandlerOk(r)
  {
    NowGrows(s.clock, r.clock);
    InsertSorted(s.queued, s.Now() + delay);
  }

  lemma ScheduleKeepsInv(s: State, delay: nat, lag: nat, r: State)
    requires Covered(s) && HandlerOk(s) && r == Scheduled(s, delay, lag)
    ensures Covered(r) && HandlerOk(r)
  {
    if s.open {
      ScheduledInserts(s, delay, lag);
      InsertedCovers(s, delay, lag, r);
      InsertedHandler(s, delay, lag, r);
    }
  }

  lemma DrainKeepsInv(s: State)
    requires Covered(s) && HandlerOk(s) && s.handler.Reading? && s.expired
    ensures Covered(Drained(s)) && HandlerOk(Drained(s))
  {
  }

  lemma FinishKeepsInv(s: State)
    requires Covered(s) && HandlerOk(s) && s.handler.CallingBack?
    ensures !FinishAborts(s) && Covered(Finished(s)) && HandlerOk(Finished(s))
  {
    if s.queued != [] && s.open {
      var delay := s.queued[0] - s.handler.now;
      NowGrows(s.clock, s.clock);
    }
  }

  lemma StepKeepsInv(s: State, l: Label, r: State)
    requires Inv(s) && Next(s, l) == Some(r)
    ensures Inv(r)
  {
    StepConserves(s, l, r);
    StepPrompt(s, l, r);
    match l
    case Schedule(delay, lag) => ScheduleKeepsInv(s, delay, lag, r);
    case Tick(ns) => NowGrows(s.clock, r.clock);
    case Drain => DrainKeepsInv(s);
    case Finish => FinishKeepsInv(s);
    case Expire => NowGrows(s.alarm.value, s.clock);
    case _ =>
  }

  lemma EveryRunIsSafe(clock: nat, steps: seq<Label>)
    ensures var r := Run(Next, Init(clock), steps); r.Some? ==> Inv(r.value)
  {
    forall s, l | Inv(s) && Next(s, l).Some? ensures Inv(Next(s, l).value) {
      StepKeepsInv(s, l, Next(s, l).value);
    }
    InvariantAlongRun(Next, Inv, Init(clock), steps);
  }

  /** No lost deadline: in every run, with the descriptor open and no handler at work, a
      queued deadline has the timer armed or expired unread, and not before the earliest
      deadline.  A handler blocked in its read of an open descriptor is going to be woken. */
  lemma NoLostDeadline(clock: nat, steps: seq<Label>)
    ensures var r := Run(Next, Init(clock), steps);
            r.Some? ==>
              && (r.value.open && r.value.queued != [] && r.value.handler.NoEvent? ==>
                    r.value.alarm.Some? || r.value.expired)
              && (r.value.queued != [] && r.value.alarm.Some? ==>
                    forall d :: d in r.value.queued && (forall e :: e in r.value.queued ==> d <= e) ==>
                      d * NS_PER_MS <= r.value.alarm.value)
              && (r.value.open && r.value.handler.Reading? ==> r.value.alarm.Some? || r.value.expired)
  {
    EveryRunIsSafe(clock, steps);
    var r := Run(Next, Init(clock), steps);
    if r.Some? && r.value.queued != [] {
      assert r.value.queued[0] in r.value.queued;
    }
  }

  /** No deadline is put off: in every run an armed timer expires by the end of the
      millisecond of the earliest deadline, but for the time that passed between reading the
      clock and setting the timer. */
  lemma NoDeadlinePutOff(clock: nat, steps: seq<Label>)
    ensures var r := Run(Next, Init(clock), steps);
            r.Some? && r.value.alarm.Some? ==>
              forall d :: d in r.value.queued ==> r.value.alarm.value <= (d + 1) * NS_PER_MS + r.value.late
  {
    EveryRunIsSafe(clock, steps);
  }

  /** Runs in which no time passes there: without lags, and with the clock standing still
      while callbacks are made. */
  function PromptNext(s: State, l: Label): Option<State> {
    if (l.Schedule? && l.lag > 0) || (l.Tick? && s.handler.CallingBack?) then None else Next(s, l)
  }

  predicate OnTheDot(s: State) {
    s.late == 0 && (s.handler.CallingBack? ==> s.readAt == s.clock)
  }

  /** In these no deadline waits beyond its millisecond. */
  lemma PromptRunsAreNotLate(clock: nat, steps: seq<Label>)
    ensures var r := Run(PromptNext, Init(clock), steps);
            r.Some? && r.value.alarm.Some? ==>
              forall d :: d in r.value.queued ==> r.value.alarm.value <= (d + 1) * NS_PER_MS
  {
    forall s, l | OnTheDot(s) && PromptNext(s, l).Some? ensures OnTheDot(PromptNext(s, l).value) {
    }
    InvariantAlongRun(PromptNext, OnTheDot, Init(clock), steps);
    var r := Run(PromptNext, Init(clock), steps);
    if r.Some? {
      LeadsInBig(PromptNext, Next, Init(clock), steps, r.value);
      NoDeadlinePutOff(clock, steps);
    }
  }

  /** Timer conservation, and the abort behind the callbacks is unreachable, whatever the
      callbacks and other threads schedule. */
  lemma TimersConserved(clock: nat, steps: seq<Label>)
    ensures var r := Run(Next, Init(clock), steps);
            r.Some? ==>
              && multiset(r.value.accepted)
                 == multiset(Deadlines(r.value.fired)) + multiset(r.value.cleared) + multiset(r.value.queued)
              && (forall i :: 0 <= i < |r.value.fired| ==> r.value.fired[i].deadline <= r.value.fired[i].at)
              && (!r.value.handler.CallingBack? ==> r.value.callbacks == |r.value.fired|)
              && !FinishAborts(r.value)
  {
    EveryRunIsSafe(clock, steps);
    var r := Run(Next, Init(clock), steps);
    if r.Some? {
      BalancedMultisets(r.value.accepted, Deadlines(r.value.fired), r.value.cleared, r.value.queued);
    }
  }

  /** A wake-up with deadlines queued always fires at least the earliest. */
  lemma WakeUpFires(s: State, r: State)
    requires Inv(s) && s.queued != [] && Next(s, Drain) == Some(r)
    ensures r.handler.owed > 0 && r.fired[|s.fired|].deadline == s.queued[0]
  {
  }

  // ---------------------------------------------------------------- the read that fails

  predicate ClosedBy(steps: seq<Label>) {
    exists i :: 0 <= i < |steps| && steps[i].CloseTimer?
  }

  /** An event was delivered, and the handler got the lock after a close. */
  predicate LockedAfterClose(steps: seq<Label>) {
    exists i, k :: 0 <= i < k < |steps| && steps[i].CloseTimer? && steps[k].LockRead?
  }

  lemma ClosedByLast(steps: seq<Label>)
    requires steps != []
    ensures var n := |steps| - 1;
            && (ClosedBy(steps) <==> ClosedBy(steps[..n]) || steps[n].CloseTimer?)
            && (LockedAfterClose(steps) <==> LockedAfterClose(steps[..n]) || (ClosedBy(steps[..n]) && steps[n].LockRead?))
  {
    var n := |steps| - 1;
    if ClosedBy(steps[..n]) {
      var i :| 0 <= i < n && steps[..n][i].CloseTimer?;
      assert steps[i].CloseTimer?;
    }
    if LockedAfterClose(steps[..n]) {
      var i, k :| 0 <= i < k < n && steps[..n][i].CloseTimer? && steps[..n][k].LockRead?;
      assert steps[i].CloseTimer? && steps[k].LockRead?;
    }
    if LockedAfterClose(steps) {
      var i, k :| 0 <= i < k < |steps| && steps[i].CloseTimer? && steps[k].LockRead?;
      assert steps[..n][i].CloseTimer? && (k < n ==> steps[..n][k].LockRead?);
    }
    if ClosedBy(steps) && !steps[n].CloseTimer? {
      var i :| 0 <= i < n && steps[i].CloseTimer?;
      assert steps[..n][i].CloseTimer?;
    }
  }

  lemma ReadFailsStep(s: State, l: Label, r: State)
    requires Covered(s) && Next(s, l) == Some(r)
    ensures !r.open <==> !s.open || l.CloseTimer?
    ensures ReadFails(r) <==> ReadFails(s) || (!s.open && l.LockRead?)
  {
  }

  /** In every run the read fails exactly if the timer is closed after an event was
      delivered and before the handler has the lock; nothing else makes the handler give up. */
  lemma {:induction false} ReadFailsIff(clock: nat, steps: seq<Label>)
    requires Run(Next, Init(clock), steps).Some?
    ensures var r := Run(Next, Init(clock), steps).value;
            (!r.open <==> ClosedBy(steps)) && (ReadFails(r) <==> LockedAfterClose(steps))
    decreases |steps|
  {
    if steps != [] {
      var n := |steps| - 1;
      RunLast(Next, Init(clock), steps);
      ReadFailsIff(clock, steps[..n]);
      EveryRunIsSafe(clock, steps[..n]);
      ReadFailsStep(Run(Next, Init(clock), steps[..n]).value, steps[n], Run(Next, Init(clock), steps).value);
      ClosedByLast(steps);
    }
  }

  // ---------------------------------------------------------------- the object

  predicate Initial(s: State) { s == Init(s.clock) }

  /** Some run from a new timer ends in `s`. */
  ghost predicate Reachable(s: State) {
    Reaches(Next, Initial, s)
  }

  lemma ReachableStep(s: State, l: Label, r: State)
    requires Reachable(s) && Next(s, l) == Some(r)
    ensures Reachable(r) && Leads(Next, s, [l], r)
  {
    LeadsOne(Next, s, l, r);
    ReachableOn(Next, Initial, s, [l], r);
  }

  lemma ReachableScheduled(s: State, delay: nat, lag: nat)
    requires Reachable(s) && s.Unlocked()
    ensures Reachable(Scheduled(s, delay, lag))
    ensures Next(s, Schedule(delay, lag)) == Some(Scheduled(s, delay, lag))
  {
    ReachableStep(s, Schedule(delay, lag), Scheduled(s, delay, lag));
  }

  lemma InsertedOnce(s: State, delay: nat, lag: nat, queued: seq<int>, clock: nat, alarm: Option<nat>, expired: bool)
    requires s.open
    requires EventInserted(s.queued, s.clock, s.alarm, s.expired, delay, lag, queued, clock, alarm, expired)
    ensures var r := Scheduled(s, delay, lag);
            r.open && r.queued == queued && r.clock == clock && r.alarm == alarm && r.expired == expired
            && queued == Insert(s.queued, s.Now() + delay)
  {
    ScheduledInserts(s, delay, lag);
  }

  lemma ReachableIsSafe(s: State)
    requires Reachable(s)
    ensures !FinishAborts(s)
    ensures !s.open ==> s.alarm.None? && !s.expired
    ensures s.open && s.handler.Reading? ==> s.alarm.Some? || s.expired
  {
    var s0, steps :| Initial(s0) && Leads(Next, s0, steps, s);
    EveryRunIsSafe(s0.clock, steps);
  }

  lemma {:induction false} CountDueIs(s: seq<int>, now: int, k: nat)
    requires k <= |s| && (forall i :: 0 <= i < k ==> s[i] <= now) && (k < |s| ==> now < s[k])
    ensures CountDue(s, now) == k
    decreases |s|
  {
    if k > 0 {
      CountDueIs(s[1..], now, k - 1);
    }
  }

  /** Waiting for the timer to expire, unless it has. */
  function Wait(s: State, late: nat): seq<Label> {
    if s.expired || s.alarm.None? then []
    else [Tick((if s.alarm.value > s.clock then s.alarm.value - s.clock else 0) + late)] + [Expire]
  }

  function CallbacksIn(steps: seq<Label>): nat {
    if steps == [] then 0 else (if steps[0].Callback? then 1 else 0) + CallbacksIn(steps[1..])
  }

  lemma {:induction false} CallbacksAppend(a: seq<Label>, b: seq<Label>)
    ensures CallbacksIn(a + b) == CallbacksIn(a) + CallbacksIn(b)
    decreases |a|
  {
    if a == [] {
      assert a + b == b;
    } else {
      assert (a + b)[1..] == a[1..] + b;
      CallbacksAppend(a[1..], b);
    }
  }

  predicate OfOthers(l: Label) {
    l.Schedule? || l.Unschedule? || l.CloseTimer? || l.Tick? || l.Expire?
  }

  /** Callbacks, and in between what others do. */
  ghost predicate BackFrom(steps: seq<Label>, others: nat -> seq<Label>) {
    forall l :: l in steps ==> l.Callback? || (OfOthers(l) && exists i: nat :: l in others(i))
  }

  /** The handler locks, waits if it has to, drains, makes one callback for each deadline that
      is due at that time, and finishes; all else is done by others. */
  ghost predicate HandlerSteps(s: State, late: nat, others: nat -> seq<Label>, steps: seq<Label>) {
    exists rest :: HandlerStepsWith(s, late, others, steps, rest)
  }

  ghost predicate HandlerStepsWith(s: State, late: nat, others: nat -> seq<Label>, steps: seq<Label>, rest: seq<Label>) {
    && steps == Head(s, late) + rest + [Finish]
    && BackFrom(rest, others)
    && CallbacksIn(rest) == Due(s, late)
  }

  function Head(s: State, late: nat): seq<Label> {
    [LockRead] + Wait(s, late) + [Drain]
  }

  /** The state in which the read returns. */
  function Awaited(s: State, late: nat): State {
    if s.expired || s.alarm.None? then s
    else s.(clock := s.clock + Waited(s, late), alarm := None, expired := true)
  }

  lemma WaitLeads(s: State, late: nat)
    requires Reachable(s) && s.handler.Reading? && s.open
    ensures var r := Awaited(s, late);
            Leads(Next, s, Wait(s, late), r) && Reachable(r) && r.expired && (s.expired || s.alarm.Some?)
  {
    ReachableIsSafe(s);
    var r := Awaited(s, late);
    if !s.expired {
      var w := Waited(s, late);
      var q := s.(clock := s.clock + w);
      LeadsOne(Next, s, Tick(w), q);
      LeadsOneMore(Next, s, [Tick(w)], q, Expire, r);
    }
    ReachableOn(Next, Initial, s, Wait(s, late), r);
  }

  /** What the handler does before its first callback is a run. */
  lemma HeadLeads(s: State, late: nat)
    requires Reachable(s) && s.handler.Delivered? && s.open
    ensures Leads(Next, s, Head(s, late), Drained(Awaited(s.(handler := Reading), late)))
    ensures Due(s.(handler := Reading), late) == Due(s, late)
  {
    var q := s.(handler := Reading);
    ReachableStep(s, LockRead, q);
    WaitLeads(q, late);
    LeadsOn(Next, s, [LockRead], q, Wait(q, late), Awaited(q, late));
    LeadsOneMore(Next, s, [LockRead] + Wait(q, late), Awaited(q, late), Drain, Drained(Awaited(q, late)));
  }

  /** How many deadlines are due when the read returns. */
  function Due(s: State, late: nat): nat {
    CountDue(s.queued, (s.clock + Waited(s, late)) / NS_PER_MS)
  }

  function Waited(s: State, late: nat): nat {
    if s.expired || s.alarm.None? then 0 else (if s.alarm.value > s.clock then s.alarm.value - s.clock else 0) + late
  }

  lemma {:induction false} OthersMakeNone(steps: seq<Label>, others: nat -> seq<Label>, i: nat)
    requires DoneByOthers(steps, others(i))
    ensures BackFrom(steps, others) && CallbacksIn(steps) == 0
    decreases |steps|
  {
    forall l | l in steps ensures exists i: nat :: l in others(i) {
      assert l in others(i);
    }
    if steps != [] {
      assert OfOthers(steps[0]);
      OthersMakeNone(steps[1..], others, i);
    }
  }

  predicate DoneByOthers(steps: seq<Label>, script: seq<Label>) {
    forall l :: l in steps ==> l in script && OfOthers(l)
  }

  /** Behind `head`, the handler has made `n` callbacks. */
  ghost predicate Handling(start: State, head: seq<Label>, rest: seq<Label>, others: nat -> seq<Label>, n: nat, s: State) {
    Leads(Next, start, head + rest, s) && BackFrom(rest, others) && CallbacksIn(rest) == n
  }

  lemma HandlingStarts(start: State, head: seq<Label>, others: nat -> seq<Label>, s: State)
    requires Leads(Next, start, head, s)
    ensures Handling(start, head, [], others, 0, s)
  {
    assert head + [] == head;
  }

  lemma HandlingOn(start: State, head: seq<Label>, rest: seq<Label>, others: nat -> seq<Label>, n: nat, s: State,
                   more: seq<Label>, i: nat, r: State) returns (rest': seq<Label>)
    requires Handling(start, head, rest, others, n, s) && Leads(Next, s, more + [Callback], r)
    requires DoneByOthers(more, others(i))
    ensures Handling(start, head, rest', others, n + 1, r)
  {
    rest' := rest + (more + [Callback]);
    LeadsOn(Next, start, head + rest, s, more + [Callback], r);
    assert head + rest + (more + [Callback]) == head + rest';
    OthersMakeNone(more, others, i);
    CallbacksAppend(rest, more + [Callback]);
    CallbacksAppend(more, [Callback]);
    assert [Callback][1..] == [];
  }

  lemma HandlingEnds(start: State, late: nat, rest: seq<Label>, others: nat -> seq<Label>, s: State,
                     more: seq<Label>, i: nat, r: State) returns (steps: seq<Label>)
    requires Handling(start, Head(start, late), rest, others, Due(start, late), s)
    requires Leads(Next, s, more + [Finish], r) && DoneByOthers(more, others(i))
    ensures Leads(Next, start, steps, r) && HandlerSteps(start, late, others, steps)
  {
    var head := Head(start, late);
    steps := head + rest + (more + [Finish]);
    LeadsOn(Next, start, head + rest, s, more + [Finish], r);
    OthersMakeNone(more, others, i);
    CallbacksAppend(rest, more);
    assert steps == head + (rest + more) + [Finish];
    assert HandlerStepsWith(start, late, others, steps, rest + more);
  }

  /** The listener with its timer descriptor.  `history` is the state of the transition
      system that the object is in; each method takes the step of that name. */
  class TimeEventListener {
    var fd: int
    var queuedEvents: seq<int>
    // the kernel's side of the descriptor
    var clock: nat
    var alarm: Option<nat>
    var expired: bool
    ghost var history: State

    ghost predicate Shows()
      reads this
    {
      && history.open == (fd >= 0) && history.queued == queuedEvents
      && history.clock == clock && history.alarm == alarm && history.expired == expired
    }

    ghost predicate Valid()
      reads this
    {
      Shows() && Reachable(history)
    }

    /** A descriptor that could not be created is negative, and the timer as good as closed. */
    constructor (fd: int, clock: nat)
      ensures Valid() && this.fd == fd && history == Init(clock).(open := fd >= 0)
    {
      this.fd, queuedEvents := fd, [];
      this.clock, alarm, expired := clock, None, false;
      history := Init(clock).(open := fd >= 0);
      new;
      InitialIsReachable(Next, Initial, Init(clock));
      if fd < 0 {
        ReachableStep(Init(clock), CloseTimer, history);
      }
    }

    /** `timerfd_settime` with a relative time: it fails for a closed descriptor and for
        nanoseconds that are a second or more, and zero disarms the timer. */
    method SetTime(sec: nat, nsec: nat) returns (res: int)
      modifies `alarm, `expired
      ensures res == 0 <==> fd >= 0 && nsec < NS_PER_S
      ensures if res != 0 then alarm == old(alarm) && expired == old(expired)
              else !expired && alarm == if sec == nsec == 0 then None else Some(clock + (sec * NS_PER_S + nsec))
    {
      if fd < 0 || nsec >= NS_PER_S {
        return -1;
      }
      expired := false;
      alarm := if sec == 0 && nsec == 0 then None else Some(clock + (sec * NS_PER_S + nsec));
      res := 0;
    }

    /** Setting the timer succeeds, whatever the delay. */
    method InternalSchedule(delay: nat) returns (scheduled: bool)
      requires fd >= 0
      modifies `alarm, `expired
      ensures scheduled && alarm == Some(clock + TimerValue(delay)) && !expired
    {
      var sec, nsec := 0, 1;
      if delay != 0 {
        sec, nsec := delay / 1000, delay % 1000 * 1_000_000;
      }
      var res := SetTime(sec, nsec);
      scheduled := res == 0;
    }

    /** Returns whether the event will happen. */
    method Schedule(delay: nat, lag: nat) returns (scheduled: bool)
      requires Valid() && history.Unlocked()
      modifies this
      ensures Valid() && Next(old(history), Label.Schedule(delay, lag)) == Some(history)
      ensures scheduled == (old(fd) >= 0) && fd == old(fd)
      ensures scheduled ==> EventInserted(old(queuedEvents), old(clock), old(alarm), old(expired), delay, lag,
                                          queuedEvents, clock, alarm, expired)
    {
      if fd < 0 {
        scheduled := false;
      } else {
        scheduled := InsertEvent(delay, lag);
        InsertedOnce(history, delay, lag, queuedEvents, clock, alarm, expired);
      }
      ReachableScheduled(history, delay, lag);
      history := Scheduled(history, delay, lag);
    }

    /** Adds a deadline, and sets the timer if the deadline is now the earliest. */
    method InsertEvent(delay: nat, lag: nat) returns (scheduled: bool)
      requires fd >= 0
      modifies `queuedEvents, `clock, `alarm, `expired
      ensures scheduled && EventInserted(old(queuedEvents), old(clock), old(alarm), old(expired), delay, lag,
                                         queuedEvents, clock, alarm, expired)
    {
      var isScheduled := queuedEvents != [];
      var start := clock / NS_PER_MS + delay;
      var position := UpperBound(queuedEvents, start);
      queuedEvents := Insert(queuedEvents, start);
      if position == 0 {
        isScheduled := false;
      }
      clock := clock + lag;
      scheduled := true;
      if !isScheduled {
        scheduled := InternalSchedule(delay);
      }
    }

    method Unschedule() returns (hadEvents: bool)
      requires Valid() && history.Unlocked()
      modifies `queuedEvents, `history
      ensures Valid() && Next(old(history), Label.Unschedule) == Some(history)
      ensures hadEvents == (old(queuedEvents) != []) && queuedEvents == []
    {
      ghost var before := history;
      history := Next(history, Label.Unschedule).value;
      ReachableStep(before, Label.Unschedule, history);
      hadEvents := queuedEvents != [];
      queuedEvents := [];
    }

    /** What goes on while the handler does not have the lock: time passes, the timer
        expires, and callbacks and other threads schedule, unschedule and close. */
    method Interfere(script: seq<Label>) returns (ghost steps: seq<Label>)
      requires Valid() && history.handler.CallingBack?
      modifies this
      ensures Valid() && history.handler == old(history.handler)
      ensures Leads(Next, old(history), steps, history) && DoneByOthers(steps, script)
    {
      steps := [];
      for i := 0 to |script|
        invariant Valid() && history.handler == old(history.handler) && DoneByOthers(steps, script)
        invariant Leads(Next, old(history), steps, history)
      {
        if script[i].Schedule? || script[i].Unschedule? || script[i].CloseTimer? || script[i].Tick?
           || (script[i].Expire? && alarm.Some? && alarm.value <= clock)
        {
          ghost var before := history;
          Disturb(script[i]);
          LeadsOn(Next, old(history), steps, before, [script[i]], history);
          steps := steps + [script[i]];
        }
      }
    }

    method Disturb(l: Label)
      requires Valid() && history.handler.CallingBack?
      requires l.Schedule? || l.Unschedule? || l.CloseTimer? || l.Tick?
               || (l.Expire? && alarm.Some? && alarm.value <= clock)
      modifies this
      ensures Valid() && history.handler == old(history.handler)
      ensures Leads(Next, old(history), [l], history)
    {
      ghost var before := history;
      if l.Schedule? {
        var _ := Schedule(l.delay, l.lag);
      } else if l.Unschedule? {
        var _ := Unschedule();
      } else if l.CloseTimer? {
        CloseSocket();
      } else {
        if l.Tick? {
          clock := clock + l.ns;
        } else {
          alarm, expired := None, true;
        }
        history := Next(history, l).value;
      }
      ReachableStep(before, l, history);
    }

    /** Closing the descriptor disarms the timer; what is queued stays queued. */
    method CloseSocket()
      requires Valid() && history.Unlocked()
      modifies `fd, `alarm, `expired, `history
      ensures Valid() && Next(old(history), CloseTimer) == Some(history)
      ensures fd < 0 && alarm.None? && !expired
    {
      ghost var before := history;
      history := history.(open := false, alarm := None, expired := false);
      ReachableStep(before, CloseTimer, history);
      if fd < 0 {
        ReachableIsSafe(before);
        return;
      }
      fd, alarm, expired := -1, None, false;
    }

    /** The loop that erases the events that are due. */
    method EraseDue(now: int) returns (count: nat)
      modifies `queuedEvents
      ensures count == CountDue(old(queuedEvents), now) && queuedEvents == old(queuedEvents)[count..]
    {
      ghost var queued := queuedEvents;
      count := 0;
      while queuedEvents != [] && queuedEvents[0] <= now
        invariant count <= |queued| && queuedEvents == queued[count..]
        invariant forall i :: 0 <= i < count ==> queued[i] <= now
        decreases |queuedEvents|
      {
        queuedEvents := queuedEvents[1..];
        count := count + 1;
      }
      CountDueIs(queued, now, count);
    }

    /** Takes out the events that are due. */
    method DrainDue() returns (now: int, count: nat)
      requires Valid() && history.handler.Reading? && expired
      modifies `queuedEvents, `expired, `history
      ensures Valid() && Next(old(history), Drain) == Some(history)
      ensures history.handler == CallingBack(now, count)
      ensures count == CountDue(old(queuedEvents), clock / NS_PER_MS)
    {
      ghost var before := history;
      expired := false;  // read resets the expiration count
      now := clock / NS_PER_MS;
      count := EraseDue(now);
      history := Drained(history);
      ReachableStep(before, Drain, history);
    }

    /** The blocking read of the descriptor, with the lock held.  The timer may have been set
        again since the event was delivered; then the read returns `late` after it expires. */
    method AwaitExpiration(late: nat)
      requires Valid() && history.handler.Reading? && fd >= 0
      modifies `clock, `alarm, `expired, `history
      ensures Valid() && history == Awaited(old(history), late) && expired
    {
      WaitLeads(history, late);
      history := Awaited(history, late);
      if !expired {
        var wait := (if alarm.value > clock then alarm.value - clock else 0) + late;
        clock := clock + wait;
        alarm, expired := None, true;
      }
    }

    /** Reads the timer, with the lock held, and takes out what is due. */
    method ReadTimer(late: nat) returns (now: int, count: nat)
      requires Valid() && history.handler.Reading? && fd >= 0
      modifies `clock, `alarm, `expired, `queuedEvents, `history
      ensures Valid() && history == Drained(Awaited(old(history), late))
      ensures history.handler == CallingBack(now, count) && count == Due(old(history), late)
    {
      AwaitExpiration(late);
      now, count := DrainDue();
    }

    /** An event of the timer was delivered: take out what is due, call back for each without
        the lock, and re-arm the timer for the next deadline.  `others(i)` is what happens
        before the i-th callback.  Run with any interference, the handler is a run of the
        transition system, and it gives up exactly if the descriptor has been closed.  Its own
        steps are those of `HandlerSteps`. */
    method OnReadReady(late: nat, others: nat -> seq<Label>) returns (gaveUp: bool, ghost steps: seq<Label>)
      requires Valid() && history.handler.Delivered?
      modifies this
      ensures Valid() && Leads(Next, old(history), steps, history)
      ensures gaveUp <==> old(fd) < 0
      ensures if gaveUp then ReadFails(history) && steps == [LockRead]
              else history.handler.NoEvent? && HandlerSteps(old(history), late, others, steps)
    {
      ghost var start, rest, more := history, [], [];
      var now, count;
      gaveUp, now, count := ReadLocked(late);
      if gaveUp {
        return true, [LockRead];
      }
      ghost var head, before := Head(start, late), history;
      HandlingStarts(start, head, others, history);
      for i := 0 to count
        invariant Valid() && history.handler == CallingBack(now, count - i)
        invariant Handling(start, head, rest, others, i, history)
      {
        before := history;
        more := CallBackOnce(others(i));
        rest := HandlingOn(start, head, rest, others, i, before, more, i, history);
      }
      before := history;
      more := FinishHandling(others(count), now);
      steps := HandlingEnds(start, late, rest, others, before, more, count, history);
    }

    /** Takes the lock and reads the timer, which fails if the descriptor has been closed. */
    method ReadLocked(late: nat) returns (failed: bool, now: int, count: nat)
      requires Valid() && history.handler.Delivered?
      modifies `clock, `alarm, `expired, `queuedEvents, `history
      ensures Valid() && failed == (fd < 0)
      ensures failed ==> ReadFails(history) && Leads(Next, old(history), [LockRead], history)
      ensures !failed ==>
                && Leads(Next, old(history), Head(old(history), late), history)
                && history.handler == CallingBack(now, count) && count == Due(old(history), late)
    {
      ghost var start := history;
      history := history.(handler := Reading);
      ReachableStep(start, LockRead, history);
      failed, now, count := fd < 0, 0, 0;
      if !failed {
        HeadLeads(start, late);
        now, count := ReadTimer(late);
      }
    }

    /** One callback, and what others do before it. */
    method CallBackOnce(script: seq<Label>) returns (ghost more: seq<Label>)
      requires Valid() && history.handler.CallingBack? && history.handler.owed > 0
      modifies this
      ensures Valid() && DoneByOthers(more, script) && Leads(Next, old(history), more + [Callback], history)
      ensures history.handler == CallingBack(old(history.handler.now), old(history.handler.owed) - 1)
    {
      more := Interfere(script);
      ghost var before := history;
      OnTimeEvent();
      LeadsOn(Next, old(history), more, before, [Callback], history);
    }

    /** Behind the last callback. */
    method FinishHandling(script: seq<Label>, now: int) returns (ghost more: seq<Label>)
      requires Valid() && history.handler == CallingBack(now, 0)
      modifies this
      ensures Valid() && DoneByOthers(more, script) && Leads(Next, old(history), more + [Finish], history)
      ensures history.handler.NoEvent?
    {
      more := Interfere(script);
      ghost var before := history;
      Rearm(now);
      LeadsOn(Next, old(history), more, before, [Finish], history);
    }

    method OnTimeEvent()
      requires Valid() && history.handler.CallingBack? && history.handler.owed > 0
      modifies `history
      ensures Valid() && Leads(Next, old(history), [Callback], history)
      ensures Next(old(history), Callback) == Some(history)
      ensures history.handler == CallingBack(old(history.handler.now), old(history.handler.owed) - 1)
    {
      ghost var before := history;
      history := Next(history, Callback).value;
      ReachableStep(before, Callback, history);
    }

    /** The last critical section of the handler. */
    method Rearm(now: int)
      requires Valid() && history.handler == CallingBack(now, 0)
      modifies `alarm, `expired, `history
      ensures Valid() && history.handler.NoEvent?
      ensures Leads(Next, old(history), [Finish], history)
    {
      ghost var before := history;
      ReachableIsSafe(before);
      history := Finished(history);
      ReachableStep(before, Finish, history);
      if queuedEvents != [] && fd >= 0 {
        var next := queuedEvents[0];
        if next < now {
          assert false;  // invalid state
        }
        var _ := InternalSchedule(next - now);
      }
    }
  }
}
