/** What each call of the start gate does when no other thread comes between its steps. */
module StartGateCalls {
  import opened Prelude
  import opened StartGate
  import opened StartGateProof

  /** A state that some run reaches. */
  ghost predicate Reached(s: State) {
    exists n: nat, acts :: CanRun(Start(n), acts) && Run(Start(n), acts) == s
  }

  lemma ReachedInv(s: State)
    requires Reached(s)
    ensures Refs(s) && Notified(s) && s.current == LastPublished(s.log)
    ensures forall g :: 0 <= g < |s.gates| && s.gates[g].Some? ==> s.gates[g].value < s.events
  {
    var n: nat, acts :| CanRun(Start(n), acts) && Run(Start(n), acts) == s;
    StartInv(n);
    RunInv(Start(n), acts);
    forall g: nat | g < |s.gates| && s.gates[g].Some?
      ensures s.gates[g].value < s.events
    {
      assert OpenedBefore(s.log, |s.log|, g, s.gates[g].value);
    }
  }

  /** A get that starts after any publication returns the gate published last and changes nothing. */
  lemma GetAfterPublish(s: State, t: nat, k: nat)
    requires Reached(s) && t < |s.threads| && s.threads[t].Idle? && k < |s.log| && s.log[k].Published?
    ensures LastPublished(s.log).Some? && CanDo(s, Get(t))
    ensures Do(s, Get(t)) == s.(log := s.log + [Got(t, LastPublished(s.log).value)])
  {
    ReachedInv(s);
    PublishedStays(s.log, k);
  }

  /** A reset publishes a new closed gate. */
  lemma ResetPublishes(s: State, t: nat)
    requires Reached(s) && t < |s.threads| && s.threads[t].Idle?
    ensures CanRun(s, [Create(t), Publish(t)])
    ensures Run(s, [Create(t), Publish(t)])
            == s.(gates := s.gates + [None], current := Some(|s.gates|),
                  log := s.log + [Published(t, |s.gates|, false)])
  {
    var s1 := Do(s, Create(t));
    assert s1.threads[t := Idle] == s.threads;
    TwoSteps(s, Create(t), Publish(t));
  }

  /** The first two steps of a record: it reads the published gate and records a new event. */
  lemma RecordBegins(s: State, t: nat, g: nat) returns (s2: State)
    requires Refs(s) && t < |s.threads| && s.threads[t].Idle? && s.current == Some(g)
    ensures CanRun(s, [ReadGate(t), MakeEvent(t)]) && Run(s, [ReadGate(t), MakeEvent(t)]) == s2
    ensures s2 == s.(events := s.events + 1, threads := s.threads[t := RecordEvent(g, s.events)],
                     log := s.log + [ReadForRecord(t, Some(g)), Recorded(t, s.events)])
  {
    var s1 := Do(s, ReadGate(t));
    s2 := Do(s1, MakeEvent(t));
    assert s1.threads[t := RecordEvent(g, s.events)] == s.threads[t := RecordEvent(g, s.events)];
    assert s2.log == s.log + [ReadForRecord(t, Some(g)), Recorded(t, s.events)];
    TwoSteps(s, ReadGate(t), MakeEvent(t));
  }

  /** The last step opens the gate with the event and notifies who waits on it, if the gate is closed. */
  lemma AssignIs(s: State, t: nat)
    requires CanDo(s, Assign(t))
    ensures var g, e := s.threads[t].gate, s.threads[t].event;
            Do(s, Assign(t)) ==
            if s.gates[g].None?
            then s.(gates := s.gates[g := Some(e)], threads := NotifyAll(s.threads[t := Idle], g),
                    log := s.log + [Opened(t, g, e)])
            else s.(threads := s.threads[t := Idle])
  {
  }

  /**
   A record on a closed gate opens it with a new event and notifies all who wait on it; one on an open
   gate leaves all gates and threads alone.
   */
  lemma RecordIs(s: State, t: nat, g: nat)
    requires Reached(s) && t < |s.threads| && s.threads[t].Idle? && s.current == Some(g)
    ensures g < |s.gates| && CanRun(s, [ReadGate(t), MakeEvent(t)] + [Assign(t)])
    ensures var log := s.log + [ReadForRecord(t, Some(g)), Recorded(t, s.events)];
            Run(s, [ReadGate(t), MakeEvent(t)] + [Assign(t)]) ==
            if s.gates[g].None?
            then s.(gates := s.gates[g := Some(s.events)], events := s.events + 1,
                    threads := NotifyAll(s.threads, g), log := log + [Opened(t, g, s.events)])
            else s.(events := s.events + 1, log := log)
  {
    ReachedInv(s);
    var s2 := RecordBegins(s, t, g);
    assert s2.threads[t := Idle] == s.threads;
    AssignIs(s2, t);
    OneStep(s2, Assign(t));
    RunConcat(s, [ReadGate(t), MakeEvent(t)], [Assign(t)]);
  }

  /** A record without a published gate only looks. */
  lemma RecordWithoutGate(s: State, t: nat)
    requires t < |s.threads| && s.threads[t].Idle? && s.current == None
    ensures CanDo(s, ReadGate(t)) && Do(s, ReadGate(t)) == s.(log := s.log + [ReadForRecord(t, None)])
  {
  }

  /** Who waits on a gate that was opened returns True once the device reaches its event. */
  lemma WaiterReturnsTrue(s: State, t: nat, e: nat)
    requires Reached(s) && t < |s.threads| && s.threads[t].Waiting?
    ensures s.threads[t].gate < |s.gates|
    ensures s.gates[s.threads[t].gate] == Some(e) ==>
              var acts := [Complete(e)] + [Wake(t), SyncDone(t)];
              && CanRun(s, acts)
              && Run(s, acts) == s.(threads := s.threads[t := Idle], complete := s.complete + {e},
                                    log := s.log + [Completed(e)] + [WaitTrue(t, s.threads[t].gate, e)])
  {
    ReachedInv(s);
    if s.gates[s.threads[t].gate] == Some(e) {
      var s1 := Do(s, Complete(e));
      OneStep(s, Complete(e));
      assert Do(s1, Wake(t)).threads[t := Idle] == s.threads[t := Idle];
      TwoSteps(s1, Wake(t), SyncDone(t));
      RunConcat(s, [Complete(e)], [Wake(t), SyncDone(t)]);
    }
  }

  /** A wait on a closed gate blocks; one on an open gate returns True once the device has reached its event. */
  lemma WaitIs(s: State, t: nat, g: nat)
    requires Reached(s) && t < |s.threads| && s.threads[t].Idle? && g < |s.gates|
    ensures CanDo(s, Wait(t, g))
    ensures s.gates[g].None? ==> Do(s, Wait(t, g)) == s.(threads := s.threads[t := Waiting(g, false)])
    ensures s.gates[g].Some? && s.gates[g].value in s.complete ==>
              && CanRun(s, [Wait(t, g), SyncDone(t)])
              && Run(s, [Wait(t, g), SyncDone(t)]) == s.(log := s.log + [WaitTrue(t, g, s.gates[g].value)])
  {
    if s.gates[g].Some? && s.gates[g].value in s.complete {
      assert Do(s, Wait(t, g)).threads[t := Idle] == s.threads;
      TwoSteps(s, Wait(t, g), SyncDone(t));
    }
  }

  /** After a reset a get finds the gate of the reset. */
  lemma GetFindsReset(s: State)
    requires s == Start(2)
    ensures var acts := [Create(1), Publish(1)] + [Get(0)];
            && CanRun(s, acts) && Run(s, acts).gates == [None]
            && Run(s, acts).log == [Published(1, 0, false), Got(0, 0)]
  {
    var reset := State([None], Some(0), 0, {}, [Idle, Idle], [Published(1, 0, false)]);
    assert Do(Do(s, Create(1)), Publish(1)) == reset;
    TwoSteps(s, Create(1), Publish(1));
    OneStep(reset, Get(0));
    RunConcat(s, [Create(1), Publish(1)], [Get(0)]);
  }
}
