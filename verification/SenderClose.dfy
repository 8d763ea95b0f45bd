/** Closing the delayed sender while a callback is at work.  The close lets go of the socket
    without the mutex that the callback holds, so the callback may use a null pointer. */
module SenderClose {
  import opened Runs
  import opened DelayedSender
  import Timer

  predicate Closed(steps: seq<Label>) {
    exists i :: 0 <= i < |steps| && steps[i].Detach?
  }

  /** Step `c` is a comparison with null that still found the socket, and up to step `j` its
      callback has not ended. */
  predicate SameCallback(steps: seq<Label>, c: int, j: int) {
    && 0 <= c < j <= |steps| && steps[c].Compare?
    && (forall i :: 0 <= i < c ==> !steps[i].Detach?)
    && (forall k :: c < k < j ==> !steps[k].Compare? && !steps[k].OnTimeEvent?)
  }

  /** That callback was told that its socket is valid. */
  predicate FoundValid(steps: seq<Label>, c: int, j: int)
    requires 0 <= c < j <= |steps|
  {
    exists k :: c < k < j && steps[k] == Test(true)
  }

  /** Step `j` of that callback uses the pointer: to ask the socket, or to send. */
  predicate UsesPointer(steps: seq<Label>, c: int, j: int)
    requires 0 <= c < j < |steps|
  {
    steps[j].Test? || (steps[j].OnTimeEvent? && FoundValid(steps, c, j))
  }

  /** A close falls between a callback's comparison with null and one of its uses. */
  predicate ClosedBeforeUse(steps: seq<Label>) {
    exists c, i, j ::
      0 <= c < i < j < |steps| && steps[i].Detach? && SameCallback(steps, c, j) && UsesPointer(steps, c, j)
  }

  predicate Found(calling: Calling) {
    calling == Compared(true) || calling.Tested?
  }

  /** How the state of a callback follows from the steps so far. */
  ghost predicate Follows(steps: seq<Label>, s: State) {
    && (!s.attached <==> Closed(steps))
    && (Found(s.calling) ==> exists c :: SameCallback(steps, c, |steps|))
    && (forall c :: SameCallback(steps, c, |steps|) ==>
          Found(s.calling) && (s.Sends() <==> FoundValid(steps, c, |steps|)))
  }

  lemma ClosedOneMore(steps: seq<Label>, l: Label)
    ensures Closed(steps + [l]) <==> Closed(steps) || l.Detach?
  {
    if Closed(steps) {
      var i :| 0 <= i < |steps| && steps[i].Detach?;
      assert (steps + [l])[i].Detach?;
    }
    assert (steps + [l])[|steps|] == l;
  }

  lemma SameCallbackOneMore(steps: seq<Label>, l: Label, c: int)
    requires c < |steps|
    ensures SameCallback(steps + [l], c, |steps| + 1)
            <==> SameCallback(steps, c, |steps|) && !l.Compare? && !l.OnTimeEvent?
    ensures SameCallback(steps, c, |steps|) ==>
              (FoundValid(steps + [l], c, |steps| + 1) <==> FoundValid(steps, c, |steps|) || l == Test(true))
  {
    var all := steps + [l];
    assert all[|steps|] == l && forall k :: 0 <= k < |steps| ==> all[k] == steps[k];
  }

  lemma NewCallback(steps: seq<Label>, l: Label)
    ensures SameCallback(steps + [l], |steps|, |steps| + 1) <==> l.Compare? && !Closed(steps)
    ensures SameCallback(steps + [l], |steps|, |steps| + 1) ==> !FoundValid(steps + [l], |steps|, |steps| + 1)
  {
    var all := steps + [l];
    assert all[|steps|] == l && forall k :: 0 <= k < |steps| ==> all[k] == steps[k];
  }

  lemma StepFollows(steps: seq<Label>, s: State, l: Label, r: State)
    requires Follows(steps, s) && Next(s, l) == Some(r)
    ensures Follows(steps + [l], r)
  {
    var n, all, m := |steps|, steps + [l], |steps| + 1;
    ClosedOneMore(steps, l);
    NewCallback(steps, l);
    StepCalling(s, l, r);
    forall c | SameCallback(all, c, m)
      ensures Found(r.calling) && (r.Sends() <==> FoundValid(all, c, m))
    {
      if c < n {
        SameCallbackOneMore(steps, l, c);
      }
    }
    if Found(r.calling) && !l.Compare? {
      var c :| SameCallback(steps, c, n);
      SameCallbackOneMore(steps, l, c);
    }
  }

  lemma StepCalling(s: State, l: Label, r: State)
    requires Next(s, l) == Some(r)
    ensures r.calling == match l {
              case Compare => Compared(s.attached)
              case Test(valid) => Tested(valid)
              case OnTimeEvent => NoCall
              case _ => s.calling
            }
    ensures l.Test? ==> s.calling == Compared(true)
    ensures !r.attached <==> !s.attached || l.Detach?
    ensures r.nullUse <==> s.nullUse || (!s.attached && (l.Test? || (l.OnTimeEvent? && s.Sends())))
  {
  }

  lemma UseOneMore(steps: seq<Label>, l: Label)
    requires ClosedBeforeUse(steps)
    ensures ClosedBeforeUse(steps + [l])
  {
    var c, i, j :| 0 <= c < i < j < |steps| && steps[i].Detach? && SameCallback(steps, c, j) && UsesPointer(steps, c, j);
    SameUse(steps, l, c, j);
    assert (steps + [l])[i].Detach?;
  }

  lemma SameUse(steps: seq<Label>, l: Label, c: int, j: int)
    requires 0 <= c < j < |steps|
    ensures SameCallback(steps + [l], c, j) <==> SameCallback(steps, c, j)
    ensures UsesPointer(steps + [l], c, j) <==> UsesPointer(steps, c, j)
  {
    var all := steps + [l];
    assert forall k :: 0 <= k < |steps| ==> all[k] == steps[k];
  }

  lemma UseAtEnd(steps: seq<Label>, l: Label, c: int)
    requires 0 <= c < |steps|
    ensures SameCallback(steps + [l], c, |steps|) <==> SameCallback(steps, c, |steps|)
    ensures UsesPointer(steps + [l], c, |steps|) <==> l.Test? || (l.OnTimeEvent? && FoundValid(steps, c, |steps|))
  {
    var all := steps + [l];
    assert all[|steps|] == l && forall k :: 0 <= k < |steps| ==> all[k] == steps[k];
  }

  /** A use of the pointer by the last step, with the socket gone. */
  lemma NewNullUse(steps: seq<Label>, s: State, l: Label)
    requires Follows(steps, s) && !s.attached && (l.Test? ==> s.calling == Compared(true))
    requires l.Test? || (l.OnTimeEvent? && s.Sends())
    ensures ClosedBeforeUse(steps + [l])
  {
    var c :| SameCallback(steps, c, |steps|);
    var i :| 0 <= i < |steps| && steps[i].Detach?;
    UseAtEnd(steps, l, c);
    assert c < i && (steps + [l])[i].Detach?;
  }

  lemma NoNewNullUse(steps: seq<Label>, s: State, l: Label, r: State)
    requires Follows(steps, s) && Next(s, l) == Some(r) && !ClosedBeforeUse(steps) && ClosedBeforeUse(steps + [l])
    ensures !s.attached && (l.Test? || (l.OnTimeEvent? && s.Sends()))
  {
    var all := steps + [l];
    var c, i, j :| 0 <= c < i < j < |all| && all[i].Detach? && SameCallback(all, c, j) && UsesPointer(all, c, j);
    assert steps[i].Detach?;
    if j < |steps| {
      SameUse(steps, l, c, j);
    } else {
      UseAtEnd(steps, l, c);
    }
  }

  lemma {:induction false} RunFollows(clock: nat, steps: seq<Label>)
    requires Run(Next, Init(clock), steps).Some?
    ensures var r := Run(Next, Init(clock), steps).value;
            Follows(steps, r) && (r.nullUse <==> ClosedBeforeUse(steps))
    decreases |steps|
  {
    if steps != [] {
      var first, l := steps[..|steps| - 1], steps[|steps| - 1];
      assert steps == first + [l];
      RunLast(Next, Init(clock), steps);
      RunFollows(clock, first);
      var s, r := Run(Next, Init(clock), first).value, Run(Next, Init(clock), steps).value;
      StepFollows(first, s, l, r);
      StepCalling(s, l, r);
      if s.nullUse {
        UseOneMore(first, l);
      } else if r.nullUse {
        NewNullUse(first, s, l);
      } else if ClosedBeforeUse(steps) {
        NoNewNullUse(first, s, l, r);
      }
    }
  }

  /** In every run, the callbacks use a null pointer exactly if a close falls between a
      callback's comparison with null and one of its two uses of the pointer. */
  lemma NullUseIffClosedBeforeUse(clock: nat, steps: seq<Label>)
    ensures var r := Run(Next, Init(clock), steps); r.Some? ==> (r.value.nullUse <==> ClosedBeforeUse(steps))
  {
    if Run(Next, Init(clock), steps).Some? {
      RunFollows(clock, steps);
    }
  }

  /** What closing would be if it took the mutex. */
  function WaitingNext(s: State, l: Label): Option<State> {
    if l.Detach? && !s.calling.NoCall? then None else Next(s, l)
  }

  predicate Unharmed(s: State) {
    !s.nullUse && (Found(s.calling) ==> s.attached)
  }

  /** Then no run would use a null pointer. */
  lemma NoNullUseWithMutex(clock: nat, steps: seq<Label>)
    ensures var r := Run(WaitingNext, Init(clock), steps); r.Some? ==> !r.value.nullUse
  {
    forall s, l | Unharmed(s) && WaitingNext(s, l).Some? ensures Unharmed(WaitingNext(s, l).value) {
      StepCalling(s, l, WaitingNext(s, l).value);
    }
    InvariantAlongRun(WaitingNext, Unharmed, Init(clock), steps);
  }

  /** As it is, both uses can go wrong, whatever the delay of the message: `early` closes
      before the question whether the socket is valid, otherwise the close comes behind it. */
  lemma NullUseHappens(delay: nat, early: bool) returns (steps: seq<Label>, r: State)
    ensures Leads(Next, Init(0), steps, r) && r.nullUse
    ensures r.calling.Tested? <==> early
  {
    var s1, s2, more;
    steps, s1 := RestedSchedules(Init(0), delay);
    more, s2 := WakeUp(s1, Timer.TimerValue(delay));
    LeadsOn(Next, Init(0), steps, s1, more, s2);
    steps := steps + more;
    NowAfter(0, delay);
    Timer.CountDueIs([delay], s2.timer.handler.now, 1);
    more, r := CloseDuringCallback(s2, early);
    LeadsOn(Next, Init(0), steps, s2, more, r);
    steps := steps + more;
  }

  lemma CloseDuringCallback(s: State, early: bool) returns (steps: seq<Label>, r: State)
    requires s.pushing.None? && s.calling.NoCall? && s.attached && s.pending != []
    requires s.timer.handler.CallingBack? && s.timer.handler.owed > 0
    ensures Leads(Next, s, steps, r) && r.nullUse && (r.calling.Tested? <==> early)
  {
    var s1, s2 := s.(calling := Compared(true)), s;
    LeadsOne(Next, s, Compare, s1);
    if early {
      s2 := s1.(attached := false);
      LeadsOneMore(Next, s, [Compare], s1, Detach, s2);
      r := s2.(calling := Tested(true), nullUse := true);
      steps := [Compare] + [Detach];
      LeadsOneMore(Next, s, steps, s2, Test(true), r);
      steps := steps + [Test(true)];
    } else {
      s2 := s1.(calling := Tested(true));
      LeadsOneMore(Next, s, [Compare], s1, Test(true), s2);
      var s3 := s2.(attached := false);
      steps := [Compare] + [Test(true)];
      LeadsOneMore(Next, s, steps, s2, Detach, s3);
      r := Departed(s3);
      steps := steps + [Detach];
      LeadsOneMore(Next, s, steps, s3, OnTimeEvent, r);
      steps := steps + [OnTimeEvent];
    }
  }
}
