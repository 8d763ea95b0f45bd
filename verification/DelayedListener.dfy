/** The listener on top of the delayed sender.  With a delay it hands a message to the sender;
    without one it sends at once, past the messages that are waiting. */
module DelayedListener {
  import opened Runs
  import DelayedSender

  type Payload = DelayedSender.Payload

  datatype State = State(
    sender: DelayedSender.State,
    requested: seq<Payload>,   // history: messages in the order of the calls of send
    delays: seq<nat>,          // with the delay that was set at the time
    left: seq<Payload>)        // and in the order in which they left, at once or from the sender

  datatype Label =
    | Send(payload: Payload, delay: nat)
    | Step(step: DelayedSender.Label)   // a step of the sender and its timer

  function Init(clock: nat): State {
    State(DelayedSender.Init(clock), [], [], [])
  }

  function Next(s: State, l: Label): Option<State> {
    match l
    case Send(payload, delay) =>
      if delay == 0 then Some(Requested(s, payload, delay).(left := s.left + [payload]))
      else
        (match DelayedSender.Next(s.sender, DelayedSender.Push(payload, delay))
         case None => None
         case Some(r) => Some(Requested(s, payload, delay).(sender := r)))
    case Step(step) =>
      if step.Push? then None
      else
        match DelayedSender.Next(s.sender, step)
        case None => None
        case Some(r) =>
          Some(s.(sender := r, left := s.left + if step.OnTimeEvent? then [s.sender.pending[0].payload] else []))
  }

  function Requested(s: State, payload: Payload, delay: nat): State {
    s.(requested := s.requested + [payload], delays := s.delays + [delay])
  }

  // ---------------------------------------------------------------- order across the two paths

  function Waiting(s: State): seq<Payload> {
    DelayedSender.Payloads(s.sender.pending)
  }

  /** What has left, and then what is waiting, is what was requested, in that order. */
  predicate KeepsOrder(s: State) {
    s.left + Waiting(s) == s.requested
  }

  predicate AtOnce(l: Label) {
    l.Send? && l.delay == 0
  }

  /** Behind these steps nothing is waiting. */
  ghost predicate IdleAfter(clock: nat, steps: seq<Label>) {
    var s := Run(Next, Init(clock), steps);
    s.Some? ==> s.value.sender.pending == []
  }

  /** Every message that is sent at once finds no other waiting. */
  ghost predicate NobodyOvertakes(clock: nat, steps: seq<Label>) {
    forall k :: 0 <= k < |steps| && AtOnce(steps[k]) ==> IdleAfter(clock, steps[..k])
  }

  predicate Distinct(ps: seq<Payload>) {
    forall i, j :: 0 <= i < j < |ps| ==> ps[i] != ps[j]
  }

  lemma NobodyOvertakesLast(clock: nat, steps: seq<Label>, l: Label)
    ensures NobodyOvertakes(clock, steps + [l])
            <==> NobodyOvertakes(clock, steps) && (AtOnce(l) ==> IdleAfter(clock, steps))
  {
    var all, n := steps + [l], |steps|;
    assert all[n] == l && all[..n] == steps;
    forall k | 0 <= k < n ensures all[k] == steps[k] && all[..k] == steps[..k] {
    }
  }

  /** Everything that is waiting was requested. */
  predicate WaitingRequested(s: State) {
    forall i :: 0 <= i < |s.sender.pending| ==> s.sender.pending[i].payload in s.requested
  }

  lemma StepWaiting(s: State, l: Label, r: State)
    requires Next(s, l) == Some(r)
    ensures r.requested == s.requested + if l.Send? then [l.payload] else []
    ensures r.left + Waiting(r)
            == if l.Send? && l.delay == 0 then s.left + [l.payload] + Waiting(s)
               else s.left + Waiting(s) + if l.Send? then [l.payload] else []
  {
    match l
    case Send(payload, delay) =>
      if delay > 0 {
        assert Waiting(r) == Waiting(s) + [payload];
      }
    case Step(step) =>
      if step.OnTimeEvent? {
        assert Waiting(s) == [s.sender.pending[0].payload] + Waiting(r);
      } else {
        SenderKeepsPayloads(s.sender, step, r.sender);
      }
  }

  lemma SenderKeepsPayloads(s: DelayedSender.State, l: DelayedSender.Label, r: DelayedSender.State)
    requires DelayedSender.Next(s, l) == Some(r) && !l.Push? && !l.OnTimeEvent?
    ensures DelayedSender.Payloads(r.pending) == DelayedSender.Payloads(s.pending)
  {
  }

  lemma StepWaitingRequested(s: State, l: Label, r: State)
    requires WaitingRequested(s) && Next(s, l) == Some(r)
    ensures WaitingRequested(r)
  {
    if l.Step? && !l.step.OnTimeEvent? {
      SenderKeepsPayloads(s.sender, l.step, r.sender);
      forall i | 0 <= i < |r.sender.pending| ensures r.sender.pending[i].payload in r.requested {
        assert DelayedSender.Payloads(r.sender.pending)[i] == DelayedSender.Payloads(s.sender.pending)[i];
      }
    }
  }

  /** A message that leaves at once breaks the order exactly if another is waiting. */
  lemma OvertakingBreaks(left: seq<Payload>, waiting: seq<Payload>, requested: seq<Payload>, p: Payload)
    requires p !in requested && (forall i :: 0 <= i < |waiting| ==> waiting[i] in requested)
    ensures left + [p] + waiting == requested + [p] <==> left + waiting == requested && waiting == []
  {
    if waiting != [] {
      var all := left + [p] + waiting;
      assert all[|all| - 1] == waiting[|waiting| - 1] && (requested + [p])[|requested|] == p;
    } else if left + [p] + waiting == requested + [p] {
      assert left == (left + [p] + waiting)[..|left|] == (requested + [p])[..|requested|] == requested;
    }
  }

  lemma Append(a: seq<Payload>, b: seq<Payload>, p: Payload)
    ensures a + [p] == b + [p] <==> a == b
  {
    assert (a + [p])[..|a|] == a && (b + [p])[..|b|] == b;
  }

  lemma DistinctLast(ps: seq<Payload>, p: Payload)
    requires Distinct(ps + [p])
    ensures Distinct(ps) && p !in ps
  {
    var all := ps + [p];
    assert forall i :: 0 <= i < |ps| ==> all[i] == ps[i];
    assert all[|ps|] == p;
  }

  lemma {:induction false} OrderInRun(clock: nat, steps: seq<Label>)
    requires Run(Next, Init(clock), steps).Some? && Distinct(Run(Next, Init(clock), steps).value.requested)
    ensures var r := Run(Next, Init(clock), steps).value;
            WaitingRequested(r) && (KeepsOrder(r) <==> NobodyOvertakes(clock, steps))
    decreases |steps|
  {
    if steps != [] {
      var first, l := steps[..|steps| - 1], steps[|steps| - 1];
      RunLast(Next, Init(clock), steps);
      assert steps == first + [l];
      NobodyOvertakesLast(clock, first, l);
      var s, r := Run(Next, Init(clock), first).value, Run(Next, Init(clock), steps).value;
      StepWaiting(s, l, r);
      if l.Send? {
        DistinctLast(s.requested, l.payload);
      }
      OrderInRun(clock, first);
      StepWaitingRequested(s, l, r);
      StepOrder(s, l, r);
    }
  }

  lemma StepOrder(s: State, l: Label, r: State)
    requires WaitingRequested(s) && Next(s, l) == Some(r) && (l.Send? ==> l.payload !in s.requested)
    ensures KeepsOrder(r) <==> KeepsOrder(s) && (AtOnce(l) ==> s.sender.pending == [])
  {
    StepWaiting(s, l, r);
    if l.Send? && l.delay == 0 {
      OvertakingBreaks(s.left, Waiting(s), s.requested, l.payload);
    } else if l.Send? {
      Append(s.left + Waiting(s), s.requested, l.payload);
    }
  }

  /** In every run with messages that can be told apart, they leave in the order in which
      `send` was called exactly if none was sent without a delay while others were waiting. */
  lemma OrderKeptIffNobodyOvertakes(clock: nat, steps: seq<Label>)
    ensures var r := Run(Next, Init(clock), steps);
            r.Some? && Distinct(r.value.requested) ==> (KeepsOrder(r.value) <==> NobodyOvertakes(clock, steps))
  {
    var r := Run(Next, Init(clock), steps);
    if r.Some? && Distinct(r.value.requested) {
      OrderInRun(clock, steps);
    }
  }

  // ---------------------------------------------------------------- early messages

  /** The delays that reach the sender. */
  function Delayed(ds: seq<nat>): (r: seq<nat>)
    ensures forall d :: d in r ==> d > 0 && d in ds
  {
    if ds == [] then []
    else (if ds[0] == 0 then [] else [ds[0]]) + Delayed(ds[1..])
  }

  lemma {:induction false} DelayedAppend(a: seq<nat>, b: seq<nat>)
    ensures Delayed(a + b) == Delayed(a) + Delayed(b)
    decreases |a|
  {
    if a == [] {
      assert a + b == b;
    } else {
      assert (a + b)[1..] == a[1..] + b;
      DelayedAppend(a[1..], b);
    }
  }

  /** No run of the listener in which the delay is set to `ds`, message by message, sends a
      delayed message before its deadline. */
  ghost predicate NeverEarly(ds: seq<nat>) {
    forall clock, steps ::
      var r := Run(Next, Init(clock), steps);
      r.Some? && r.value.delays <= ds ==> DelayedSender.LeftOnTime(r.value.sender.departed)
  }

  /** The sender below makes a run of its own, with the delays that reach it. */
  lemma {:induction false} SenderRun(clock: nat, steps: seq<Label>) returns (below: seq<DelayedSender.Label>)
    requires Run(Next, Init(clock), steps).Some?
    ensures var r := Run(Next, Init(clock), steps).value;
            && Leads(DelayedSender.Next, DelayedSender.Init(clock), below, r.sender)
            && r.sender.delays == Delayed(r.delays)
    decreases |steps|
  {
    below := [];
    if steps != [] {
      var first, l := steps[..|steps| - 1], steps[|steps| - 1];
      RunLast(Next, Init(clock), steps);
      below := SenderRun(clock, first);
      var s, r := Run(Next, Init(clock), first).value, Run(Next, Init(clock), steps).value;
      StepBelow(s, l, r);
      if l.Send? && l.delay > 0 {
        LeadsOneMore(DelayedSender.Next, DelayedSender.Init(clock), below, s.sender,
                     DelayedSender.Push(l.payload, l.delay), r.sender);
        below := below + [DelayedSender.Push(l.payload, l.delay)];
      } else if l.Step? {
        LeadsOneMore(DelayedSender.Next, DelayedSender.Init(clock), below, s.sender, l.step, r.sender);
        below := below + [l.step];
      }
    }
  }

  lemma StepBelow(s: State, l: Label, r: State)
    requires Next(s, l) == Some(r) && s.sender.delays == Delayed(s.delays)
    ensures r.sender.delays == Delayed(r.delays)
    ensures l.Send? && l.delay > 0 ==>
              DelayedSender.Next(s.sender, DelayedSender.Push(l.payload, l.delay)) == Some(r.sender)
    ensures l.Send? && l.delay == 0 ==> r.sender == s.sender
    ensures l.Step? ==> DelayedSender.Next(s.sender, l.step) == Some(r.sender)
  {
    if l.Send? {
      DelayedAppend(s.delays, [l.delay]);
      assert [l.delay][1..] == [];
    } else {
      OnlyPushDelays(s.sender, l.step, r.sender);
    }
  }

  lemma OnlyPushDelays(s: DelayedSender.State, l: DelayedSender.Label, r: DelayedSender.State)
    requires DelayedSender.Next(s, l) == Some(r)
    ensures r.delays == s.delays + if l.Push? then [l.delay] else []
  {
  }

  /** The next positive delay, behind some delays of zero. */
  lemma {:induction false} NextDelayed(ds: seq<nat>) returns (k: nat)
    requires Delayed(ds) != []
    ensures k < |ds| && ds[k] == Delayed(ds)[0] && Delayed(ds[..k]) == []
    ensures forall i :: 0 <= i < k ==> ds[i] == 0
    decreases |ds|
  {
    k := 0;
    if ds[0] == 0 {
      k := NextDelayed(ds[1..]);
      k := k + 1;
      assert ds[..k][1..] == ds[1..][..k - 1];
    }
  }

  /** Messages without a delay change nothing for the sender. */
  lemma {:induction false} SendAtOnce(s: State, k: nat) returns (steps: seq<Label>, r: State)
    ensures Leads(Next, s, steps, r) && r.sender == s.sender && r.delays == s.delays + seq(k, _ => 0)
    decreases k
  {
    steps, r := [], s;
    if k > 0 {
      var more, q;
      q := Requested(s, 0, 0).(left := s.left + [0]);
      LeadsOne(Next, s, Send(0, 0), q);
      more, r := SendAtOnce(q, k - 1);
      LeadsOn(Next, s, [Send(0, 0)], q, more, r);
      steps := [Send(0, 0)] + more;
      assert [0] + seq(k - 1, _ => 0) == seq(k, _ => 0);
    }
  }

  /** Every run of the sender is one of the sender below a listener. */
  lemma {:induction false} ListenerRun(clock: nat, below: seq<DelayedSender.Label>, ds: seq<nat>)
      returns (steps: seq<Label>, r: State)
    requires Run(DelayedSender.Next, DelayedSender.Init(clock), below).Some?
    requires Run(DelayedSender.Next, DelayedSender.Init(clock), below).value.delays <= Delayed(ds)
    ensures Leads(Next, Init(clock), steps, r) && r.delays <= ds && r.sender.delays == Delayed(r.delays)
    ensures r.sender == Run(DelayedSender.Next, DelayedSender.Init(clock), below).value
    decreases |below|
  {
    steps, r := [], Init(clock);
    if below != [] {
      var first, l := below[..|below| - 1], below[|below| - 1];
      RunLast(DelayedSender.Next, DelayedSender.Init(clock), below);
      var s, t := Run(DelayedSender.Next, DelayedSender.Init(clock), first).value,
                  Run(DelayedSender.Next, DelayedSender.Init(clock), below).value;
      OnlyPushDelays(s, l, t);
      var q, more;
      steps, q := ListenerRun(clock, first, ds);
      if l.Push? {
        more, r := SendDelayed(q, l.payload, l.delay, ds, t);
      } else {
        r := Next(q, Step(l)).value;
        more := [Step(l)];
        LeadsOne(Next, q, Step(l), r);
      }
      LeadsOn(Next, Init(clock), steps, q, more, r);
      steps := steps + more;
    }
  }

  lemma SendDelayed(s: State, payload: Payload, delay: nat, ds: seq<nat>, t: DelayedSender.State)
      returns (steps: seq<Label>, r: State)
    requires s.delays <= ds && s.sender.delays == Delayed(s.delays) && s.sender.delays + [delay] <= Delayed(ds)
    requires DelayedSender.Next(s.sender, DelayedSender.Push(payload, delay)) == Some(t)
    ensures Leads(Next, s, steps, r) && r.sender == t && r.delays <= ds && r.sender.delays == Delayed(r.delays)
  {
    var rest := ds[|s.delays|..];
    assert ds == s.delays + rest;
    DelayedAppend(s.delays, rest);
    assert Delayed(ds)[|s.sender.delays|] == delay;
    assert delay in Delayed(ds);
    var k := NextDelayed(rest);
    var q;
    steps, q := SendAtOnce(s, k);
    r := Requested(q, payload, delay).(sender := t);
    LeadsOneMore(Next, s, steps, q, Send(payload, delay), r);
    steps := steps + [Send(payload, delay)];
    OnlyPushDelays(s.sender, DelayedSender.Push(payload, delay), t);
    ZerosThenDelay(s.delays, rest, k, delay);
  }

  lemma ZerosThenDelay(ds: seq<nat>, rest: seq<nat>, k: nat, delay: nat)
    requires k < |rest| && rest[k] == delay > 0 && Delayed(rest[..k]) == [] && forall i :: 0 <= i < k ==> rest[i] == 0
    ensures ds + seq(k, _ => 0) + [delay] <= ds + rest
    ensures Delayed(ds + seq(k, _ => 0) + [delay]) == Delayed(ds) + [delay]
  {
    assert rest[..k] == seq(k, _ => 0);
    assert rest == rest[..k] + [delay] + rest[k + 1..];
    assert ds + rest == ds + rest[..k] + [delay] + rest[k + 1..];
    ZerosAddNothing(ds, rest[..k], delay);
  }

  lemma ZerosAddNothing(ds: seq<nat>, zeros: seq<nat>, delay: nat)
    requires delay > 0 && Delayed(zeros) == []
    ensures Delayed(ds + zeros + [delay]) == Delayed(ds) + [delay]
  {
    DelayedAppend(ds + zeros, [delay]);
    DelayedAppend(ds, zeros);
    assert [delay][1..] == [];
  }

  /** A listener sends no delayed message early exactly if its delays, those of zero left
      out, are never lowered. */
  lemma NeverEarlyIff(ds: seq<nat>)
    ensures NeverEarly(ds) <==> DelayedSender.NonDecreasing(Delayed(ds))
  {
    if DelayedSender.NonDecreasing(Delayed(ds)) {
      forall clock, steps | Run(Next, Init(clock), steps).Some? && Run(Next, Init(clock), steps).value.delays <= ds
        ensures DelayedSender.LeftOnTime(Run(Next, Init(clock), steps).value.sender.departed)
      {
        ListenerOnTime(clock, steps, ds);
      }
    } else {
      var below, t := DelayedSender.LoweredDelaySendsEarly(Delayed(ds));
      var steps, r := ListenerRun(0, below, ds);
      assert Run(Next, Init(0), steps) == Some(r);
    }
  }

  lemma ListenerOnTime(clock: nat, steps: seq<Label>, ds: seq<nat>)
    requires DelayedSender.NonDecreasing(Delayed(ds))
    requires Run(Next, Init(clock), steps).Some? && Run(Next, Init(clock), steps).value.delays <= ds
    ensures DelayedSender.LeftOnTime(Run(Next, Init(clock), steps).value.sender.departed)
  {
    var below := SenderRun(clock, steps);
    var r := Run(Next, Init(clock), steps).value;
    assert ds == r.delays + ds[|r.delays|..];
    DelayedAppend(r.delays, ds[|r.delays|..]);
    PrefixNonDecreasing(Delayed(r.delays), Delayed(ds[|r.delays|..]));
    DelayedSender.UnloweredDelaysArePunctual(clock, below);
  }

  lemma PrefixNonDecreasing(a: seq<nat>, b: seq<nat>)
    requires DelayedSender.NonDecreasing(a + b)
    ensures DelayedSender.NonDecreasing(a)
  {
    assert forall i :: 0 <= i < |a| ==> a[i] == (a + b)[i];
  }
}
