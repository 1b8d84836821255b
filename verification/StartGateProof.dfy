/** Invariants of every interleaving of the start gate, and what callers may conclude from them. */
module StartGateProof {
  import opened Prelude
  import opened StartGate

  // ---- the invariant, in parts

  ghost predicate HoldsGate(pc: Pc) {
    pc.RecordRead? || pc.RecordEvent? || pc.Waiting? || pc.TimedOut? || pc.Synchronizing? || pc.Created?
  }

  /** Every gate a thread or the global names exists, so no step is held up by a missing gate. */
  ghost predicate Refs(s: State) {
    && (s.current.Some? ==> s.current.value < |s.gates|)
    && (forall t :: 0 <= t < |s.threads| && HoldsGate(s.threads[t]) ==> s.threads[t].gate < |s.gates|)
  }

  ghost predicate Global(s: State) {
    s.current == LastPublished(s.log) && GetsReturnCurrent(s.log)
  }

  /** The log and the gates agree on who was opened with what. */
  ghost predicate Opens(s: State) {
    && OpensOnce(s.log)
    && (forall k :: 0 <= k < |s.log| && s.log[k].Opened? ==>
          s.log[k].gate < |s.gates| && s.gates[s.log[k].gate] == Some(s.log[k].event))
    && (forall g: nat :: g < |s.gates| && s.gates[g].Some? ==> OpenedBefore(s.log, |s.log|, g, s.gates[g].value))
  }

  ghost predicate Waits(s: State) {
    && WaitsSynchronised(s.log)
    && (forall e :: e in s.complete ==> CompletedBefore(s.log, |s.log|, e))
    && (forall t :: 0 <= t < |s.threads| && s.threads[t].Synchronizing? ==>
          s.threads[t].gate < |s.gates| && s.gates[s.threads[t].gate] == Some(s.threads[t].event))
  }

  /** No wake-up is lost: who still waits on an open gate has been notified. */
  ghost predicate Notified(s: State) {
    forall t ::
      (0 <= t < |s.threads| && s.threads[t].Waiting? && s.threads[t].gate < |s.gates|
        && s.gates[s.threads[t].gate].Some?)
      ==> s.threads[t].notified
  }

  ghost predicate Records(s: State) {
    && RecordsOpenCurrent(s.log)
    && (forall t :: 0 <= t < |s.threads| && (s.threads[t].RecordRead? || s.threads[t].RecordEvent?) ==>
          LastReadWas(s.log, |s.log|, t, s.threads[t].gate))
  }

  /** A gate that is made and not yet published belongs to one thread and is not in the log. */
  ghost predicate Publishes(s: State) {
    && PublishesOnce(s.log)
    && (forall k :: 0 <= k < |s.log| && s.log[k].Published? ==> s.log[k].gate < |s.gates|)
    && (forall t, k :: 0 <= t < |s.threads| && s.threads[t].Created? && 0 <= k < |s.log| && s.log[k].Published? ==>
          s.log[k].gate != s.threads[t].gate)
    && (forall t, u :: 0 <= t < u < |s.threads| && s.threads[t].Created? && s.threads[u].Created? ==>
          s.threads[t].gate != s.threads[u].gate)
  }

  ghost predicate Falses(s: State) {
    && FalseWasClosed(s.log)
    && (forall t :: 0 <= t < |s.threads| && s.threads[t].TimedOut? ==>
           ExpiredClosed(s.log, |s.log|, t, s.threads[t].gate))
  }

  ghost predicate MakesForGet(pc: Pc) {
    pc.GetMissed? || (pc.Created? && pc.forGet)
  }

  ghost predicate Misses(s: State) {
    && GetsMakeWhenMissing(s.log)
    && (forall t :: 0 <= t < |s.threads| && MakesForGet(s.threads[t]) ==> LastGetMissed(s.log, |s.log|, t))
  }

  /** The events in the log are the ones made so far. */
  ghost predicate Made(s: State) {
    && (forall k :: 0 <= k < |s.log| && s.log[k].Recorded? ==> s.log[k].event < s.events)
    && (forall e: nat :: e < s.events ==> RecordedBefore(s.log, |s.log|, e))
  }

  /** An event that a thread has recorded and not yet used belongs to it alone. */
  ghost predicate Pending(s: State) {
    && (forall t :: 0 <= t < |s.threads| && s.threads[t].RecordEvent? ==> s.threads[t].event < s.events)
    && (forall t, u :: 0 <= t < u < |s.threads| && s.threads[t].RecordEvent? && s.threads[u].RecordEvent? ==>
          s.threads[t].event != s.threads[u].event)
    && (forall k :: 0 <= k < |s.log| && s.log[k].Opened? ==> s.log[k].event < s.events)
    && (forall t, k :: 0 <= t < |s.threads| && s.threads[t].RecordEvent? && 0 <= k < |s.log| && s.log[k].Opened? ==>
          s.log[k].event != s.threads[t].event)
  }

  ghost predicate Events(s: State) {
    Made(s) && Pending(s) && EventsInOrder(s.log)
  }

  ghost predicate Inv(s: State) {
    && Refs(s) && Global(s) && Opens(s) && Waits(s) && Notified(s) && Records(s) && Publishes(s) && Falses(s)
    && Misses(s) && Events(s)
  }

  lemma StartInv(n: nat)
    ensures Inv(Start(n))
  {
  }

  // ---- how the log grows

  /** What a step adds to the log. */
  function Adds(s: State, a: Action): (r: seq<Obs>)
    requires CanDo(s, a)
    ensures |r| <= 1
    ensures Do(s, a).log == s.log + r
  {
    match a
    case ReadGate(t) => [ReadForRecord(t, s.current)]
    case MakeEvent(t) => [Recorded(t, s.events)]
    case Assign(t) =>
      if s.gates[s.threads[t].gate].None? then [Opened(t, s.threads[t].gate, s.threads[t].event)] else []
    case Expire(t) => [Expired(t, s.threads[t].gate)]
    case ReturnFalse(t) => [WaitFalse(t, s.threads[t].gate)]
    case SyncDone(t) => [WaitTrue(t, s.threads[t].gate, s.threads[t].event)]
    case Get(t) => if s.current.Some? then [Got(t, s.current.value)] else [Missed(t)]
    case Publish(t) => [Published(t, s.threads[t].gate, s.threads[t].forGet)]
    case Complete(e) => [Completed(e)]
    case _ => []
  }

  lemma LastPublishedSnoc(log: seq<Obs>, o: Obs)
    ensures LastPublished(log + [o]) == if o.Published? then Some(o.gate) else LastPublished(log)
  {
    assert (log + [o])[..|log|] == log;
  }

  lemma OpenedGrows(log: seq<Obs>, more: seq<Obs>, k: nat, g: nat, e: nat)
    requires k <= |log| && OpenedBefore(log, k, g, e)
    ensures OpenedBefore(log + more, k, g, e) && OpenedBefore(log + more, |log + more|, g, e)
  {
    var j :| 0 <= j < k <= |log| && log[j].Opened? && log[j].gate == g && log[j].event == e;
    assert (log + more)[j] == log[j];
  }

  lemma CompletedGrows(log: seq<Obs>, more: seq<Obs>, k: nat, e: nat)
    requires k <= |log| && CompletedBefore(log, k, e)
    ensures CompletedBefore(log + more, k, e) && CompletedBefore(log + more, |log + more|, e)
  {
    var j :| 0 <= j < k <= |log| && log[j] == Completed(e);
    assert (log + more)[j] == log[j];
  }

  /** A read stays the last one as long as its thread reads no more. */
  lemma ReadGrows(log: seq<Obs>, more: seq<Obs>, k: nat, t: nat, g: nat)
    requires k <= |log| && LastReadWas(log, k, t, g)
    ensures LastReadWas(log + more, k, t, g)
    ensures k == |log| && (forall i :: 0 <= i < |more| ==> !(more[i].ReadForRecord? && more[i].thread == t)) ==>
              LastReadWas(log + more, |log + more|, t, g)
  {
    var r :| 0 <= r < k <= |log| && log[r] == ReadForRecord(t, Some(g)) && LastPublished(log[..r]) == Some(g)
             && NoReadBetween(log, r, k, t);
    var all := log + more;
    assert all[..r] == log[..r] && all[r] == log[r];
    assert NoReadBetween(all, r, k, t) by {
      assert forall m :: r < m < k ==> all[m] == log[m];
    }
    if k == |log| && forall i :: 0 <= i < |more| ==> !(more[i].ReadForRecord? && more[i].thread == t) {
      forall m | r < m < |all|
        ensures !(all[m].ReadForRecord? && all[m].thread == t)
      {
        if m < k {
          assert all[m] == log[m];
        } else {
          assert all[m] == more[m - k];
        }
      }
    }
  }

  // ---- each part is kept by every step

  lemma StepRefs(s: State, a: Action)
    requires Refs(s) && CanDo(s, a)
    ensures Refs(Do(s, a))
  {
  }

  lemma StepCurrent(s: State, a: Action)
    requires s.current == LastPublished(s.log) && CanDo(s, a)
    ensures Do(s, a).current == LastPublished(s.log + Adds(s, a))
  {
    var more := Adds(s, a);
    if more == [] {
      assert s.log + more == s.log;
    } else {
      assert more == [more[0]];
      LastPublishedSnoc(s.log, more[0]);
    }
  }

  lemma StepGets(s: State, a: Action, k: nat)
    requires Global(s) && CanDo(s, a) && k < |s.log + Adds(s, a)| && (s.log + Adds(s, a))[k].Got?
    ensures var log := s.log + Adds(s, a); LastPublished(log[..k]) == Some(log[k].gate)
  {
    assert (s.log + Adds(s, a))[..k] == s.log[..k];
  }

  lemma StepGlobal(s: State, a: Action)
    requires Global(s) && CanDo(s, a)
    ensures Global(Do(s, a))
  {
    var log := s.log + Adds(s, a);
    StepCurrent(s, a);
    forall k | 0 <= k < |log| && log[k].Got?
      ensures LastPublished(log[..k]) == Some(log[k].gate)
    {
      StepGets(s, a, k);
    }
  }

  lemma StepOpens(s: State, a: Action)
    requires Refs(s) && Opens(s) && CanDo(s, a)
    ensures Opens(Do(s, a))
  {
    var s', more := Do(s, a), Adds(s, a);
    var log := s.log + more;
    assert forall k :: 0 <= k < |s.log| ==> log[k] == s.log[k];
    forall g: nat | g < |s'.gates| && s'.gates[g].Some?
      ensures OpenedBefore(log, |log|, g, s'.gates[g].value)
    {
      if g < |s.gates| && s.gates[g].Some? {
        OpenedGrows(s.log, more, |s.log|, g, s.gates[g].value);
      } else {
        assert log[|s.log|] == more[0];
      }
    }
  }

  lemma StepWaits(s: State, a: Action)
    requires Refs(s) && Opens(s) && Waits(s) && CanDo(s, a)
    ensures Waits(Do(s, a))
  {
    var s', more := Do(s, a), Adds(s, a);
    var log := s.log + more;
    forall k | 0 <= k < |log| && log[k].WaitTrue?
      ensures OpenedBefore(log, k, log[k].gate, log[k].event) && CompletedBefore(log, k, log[k].event)
    {
      if k < |s.log| {
        assert log[k] == s.log[k];
        OpenedGrows(s.log, more, k, log[k].gate, log[k].event);
        CompletedGrows(s.log, more, k, log[k].event);
      } else {
        OpenedGrows(s.log, more, k, log[k].gate, log[k].event);
        CompletedGrows(s.log, more, k, log[k].event);
      }
    }
    forall e | e in s'.complete
      ensures CompletedBefore(log, |log|, e)
    {
      if e in s.complete {
        CompletedGrows(s.log, more, |s.log|, e);
      } else {
        assert log[|s.log|] == Completed(e);
      }
    }
  }

  lemma StepNotified(s: State, a: Action)
    requires Refs(s) && Notified(s) && CanDo(s, a)
    ensures Notified(Do(s, a))
  {
  }

  lemma StepRecordsLog(s: State, a: Action, k: nat)
    requires Records(s) && CanDo(s, a) && k < |s.log + Adds(s, a)| && (s.log + Adds(s, a))[k].Opened?
    ensures var log := s.log + Adds(s, a); LastReadWas(log, k, log[k].thread, log[k].gate)
  {
    var more := Adds(s, a);
    var log := s.log + more;
    if k < |s.log| {
      assert log[k] == s.log[k];
    }
    ReadGrows(s.log, more, k, log[k].thread, log[k].gate);
  }

  /** A recording thread has just read, or goes on with what it read before. */
  lemma ReadBy(s: State, a: Action, t: nat)
    requires CanDo(s, a) && t < |Do(s, a).threads|
    requires Do(s, a).threads[t].RecordRead? || Do(s, a).threads[t].RecordEvent?
    ensures t < |s.threads|
    ensures if a == ReadGate(t) then s.current == Some(Do(s, a).threads[t].gate)
            else
              && (s.threads[t].RecordRead? || s.threads[t].RecordEvent?)
              && s.threads[t].gate == Do(s, a).threads[t].gate
    ensures a != ReadGate(t) ==> forall i :: 0 <= i < |Adds(s, a)| ==>
              !(Adds(s, a)[i].ReadForRecord? && Adds(s, a)[i].thread == t)
  {
  }

  lemma StepRecordsThread(s: State, a: Action, t: nat)
    requires Global(s) && Records(s) && CanDo(s, a) && t < |Do(s, a).threads|
    requires Do(s, a).threads[t].RecordRead? || Do(s, a).threads[t].RecordEvent?
    ensures var log := s.log + Adds(s, a); LastReadWas(log, |log|, t, Do(s, a).threads[t].gate)
  {
    var more := Adds(s, a);
    var log := s.log + more;
    ReadBy(s, a, t);
    if a == ReadGate(t) {
      assert log[..|s.log|] == s.log && log[|s.log|] == ReadForRecord(t, s.current);
      assert NoReadBetween(log, |s.log|, |log|, t);
    } else {
      ReadGrows(s.log, more, |s.log|, t, s.threads[t].gate);
    }
  }

  lemma StepRecords(s: State, a: Action)
    requires Global(s) && Records(s) && CanDo(s, a)
    ensures Records(Do(s, a))
  {
    var s', log := Do(s, a), s.log + Adds(s, a);
    forall k | 0 <= k < |log| && log[k].Opened?
      ensures LastReadWas(log, k, log[k].thread, log[k].gate)
    {
      StepRecordsLog(s, a, k);
    }
    forall t | 0 <= t < |s'.threads| && (s'.threads[t].RecordRead? || s'.threads[t].RecordEvent?)
      ensures LastReadWas(log, |log|, t, s'.threads[t].gate)
    {
      StepRecordsThread(s, a, t);
    }
  }

  /** A step that publishes takes the gate of a thread that had made it. */
  lemma PublishedBy(s: State, a: Action, k: nat)
    requires CanDo(s, a) && k < |s.log + Adds(s, a)| && (s.log + Adds(s, a))[k].Published?
    ensures k < |s.log| ==> (s.log + Adds(s, a))[k] == s.log[k]
    ensures k >= |s.log| ==>
              && k == |s.log| && a.Publish? && s.threads[a.t].Created?
              && (s.log + Adds(s, a))[k].gate == s.threads[a.t].gate
  {
  }

  lemma StepPublishLog(s: State, a: Action)
    requires Refs(s) && Publishes(s) && CanDo(s, a)
    ensures PublishesOnce(Do(s, a).log)
    ensures forall k :: 0 <= k < |Do(s, a).log| && Do(s, a).log[k].Published? ==>
              Do(s, a).log[k].gate < |Do(s, a).gates|
  {
    var log := s.log + Adds(s, a);
    assert |s.gates| <= |Do(s, a).gates|;
    forall k | 0 <= k < |log| && log[k].Published?
      ensures log[k].gate < |s.gates|
    {
      PublishedBy(s, a, k);
    }
    forall j, k | 0 <= j < k < |log| && log[j].Published? && log[k].Published?
      ensures log[j].gate != log[k].gate
    {
      PublishedBy(s, a, j);
      PublishedBy(s, a, k);
    }
  }

  /** A thread with an unpublished gate had it before, or has just made a new one. */
  lemma CreatedBy(s: State, a: Action, t: nat)
    requires CanDo(s, a) && t < |Do(s, a).threads| && Do(s, a).threads[t].Created?
    ensures t < |s.threads|
    ensures if a == Create(t) then Do(s, a).threads[t].gate == |s.gates|
            else s.threads[t] == Do(s, a).threads[t] && a != Publish(t)
  {
  }

  lemma StepPublishes(s: State, a: Action)
    requires Refs(s) && Publishes(s) && CanDo(s, a)
    ensures Publishes(Do(s, a))
  {
    var s', log := Do(s, a), s.log + Adds(s, a);
    StepPublishLog(s, a);
    forall t, k | 0 <= t < |s'.threads| && s'.threads[t].Created? && 0 <= k < |log| && log[k].Published?
      ensures log[k].gate != s'.threads[t].gate
    {
      CreatedBy(s, a, t);
      PublishedBy(s, a, k);
    }
    forall t, u | 0 <= t < u < |s'.threads| && s'.threads[t].Created? && s'.threads[u].Created?
      ensures s'.threads[t].gate != s'.threads[u].gate
    {
      CreatedBy(s, a, t);
      CreatedBy(s, a, u);
    }
  }

  /** An expiry stays the last one as long as the time of its thread does not run out again. */
  lemma ExpiredGrows(log: seq<Obs>, more: seq<Obs>, k: nat, t: nat, g: nat)
    requires k <= |log| && ExpiredClosed(log, k, t, g)
    ensures ExpiredClosed(log + more, k, t, g)
    ensures k == |log| && (forall i :: 0 <= i < |more| ==> !(more[i].Expired? && more[i].thread == t)) ==>
              ExpiredClosed(log + more, |log + more|, t, g)
  {
    var r :| 0 <= r < k <= |log| && log[r] == Expired(t, g) && ClosedBefore(log, r, g)
             && NoExpiryBetween(log, r, k, t);
    var all := log + more;
    assert all[r] == log[r];
    assert ClosedBefore(all, r, g) && NoExpiryBetween(all, r, k, t) by {
      assert forall j :: 0 <= j < k ==> all[j] == log[j];
    }
    if k == |log| && forall i :: 0 <= i < |more| ==> !(more[i].Expired? && more[i].thread == t) {
      forall m | r < m < |all|
        ensures !(all[m].Expired? && all[m].thread == t)
      {
        if m < k {
          assert all[m] == log[m];
        } else {
          assert all[m] == more[m - k];
        }
      }
    }
  }

  lemma StepFalseLog(s: State, a: Action, k: nat)
    requires Falses(s) && CanDo(s, a) && k < |s.log + Adds(s, a)| && (s.log + Adds(s, a))[k].WaitFalse?
    ensures var log := s.log + Adds(s, a); ExpiredClosed(log, k, log[k].thread, log[k].gate)
  {
    var log := s.log + Adds(s, a);
    if k < |s.log| {
      assert log[k] == s.log[k];
    }
    ExpiredGrows(s.log, Adds(s, a), k, log[k].thread, log[k].gate);
  }

  /** A thread whose time has run out was waiting until now, or goes on as before. */
  lemma TimedOutBy(s: State, a: Action, t: nat)
    requires Refs(s) && Notified(s) && CanDo(s, a) && t < |Do(s, a).threads| && Do(s, a).threads[t].TimedOut?
    ensures t < |s.threads|
    ensures if a == Expire(t)
            then
              && Adds(s, a) == [Expired(t, Do(s, a).threads[t].gate)]
              && Do(s, a).threads[t].gate < |s.gates| && s.gates[Do(s, a).threads[t].gate].None?
            else s.threads[t] == Do(s, a).threads[t]
    ensures a != Expire(t) ==>
              forall i :: 0 <= i < |Adds(s, a)| ==> !(Adds(s, a)[i].Expired? && Adds(s, a)[i].thread == t)
  {
  }

  lemma StepFalseThread(s: State, a: Action, t: nat)
    requires Refs(s) && Opens(s) && Notified(s) && Falses(s) && CanDo(s, a)
    requires t < |Do(s, a).threads| && Do(s, a).threads[t].TimedOut?
    ensures var log := s.log + Adds(s, a); ExpiredClosed(log, |log|, t, Do(s, a).threads[t].gate)
  {
    TimedOutBy(s, a, t);
    if a == Expire(t) {
      var g := Do(s, a).threads[t].gate;
      var log := s.log + [Expired(t, g)];
      assert log[|s.log|] == Expired(t, g) && forall j :: 0 <= j < |s.log| ==> log[j] == s.log[j];
      assert ClosedBefore(log, |s.log|, g) && NoExpiryBetween(log, |s.log|, |log|, t);
    } else {
      ExpiredGrows(s.log, Adds(s, a), |s.log|, t, s.threads[t].gate);
    }
  }

  lemma StepFalses(s: State, a: Action)
    requires Refs(s) && Opens(s) && Notified(s) && Falses(s) && CanDo(s, a)
    ensures Falses(Do(s, a))
  {
    var s', log := Do(s, a), s.log + Adds(s, a);
    forall k | 0 <= k < |log| && log[k].WaitFalse?
      ensures ExpiredClosed(log, k, log[k].thread, log[k].gate)
    {
      StepFalseLog(s, a, k);
    }
    forall t | 0 <= t < |s'.threads| && s'.threads[t].TimedOut?
      ensures ExpiredClosed(log, |log|, t, s'.threads[t].gate)
    {
      StepFalseThread(s, a, t);
    }
  }

  // ---- gets that miss

  lemma NoneLast(log: seq<Obs>)
    requires LastPublished(log) == None
    ensures NonePublished(log, |log|)
  {
    forall j | 0 <= j < |log|
      ensures !log[j].Published?
    {
      if log[j].Published? {
        PublishedStays(log, j);
      }
    }
  }

  /** A miss stays the last look as long as its thread looks no more. */
  lemma MissGrows(log: seq<Obs>, more: seq<Obs>, k: nat, t: nat)
    requires k <= |log| && LastGetMissed(log, k, t)
    ensures LastGetMissed(log + more, k, t)
    ensures k == |log| && (forall i :: 0 <= i < |more| ==> !LooksFor(more[i], t)) ==>
              LastGetMissed(log + more, |log + more|, t)
  {
    var r :| 0 <= r < k <= |log| && log[r] == Missed(t) && NonePublished(log, r) && NoGetBetween(log, r, k, t);
    var all := log + more;
    assert all[r] == log[r];
    assert NonePublished(all, r) && NoGetBetween(all, r, k, t) by {
      assert forall j :: 0 <= j < k ==> all[j] == log[j];
    }
    if k == |log| && forall i :: 0 <= i < |more| ==> !LooksFor(more[i], t) {
      forall m | r < m < |all|
        ensures !LooksFor(all[m], t)
      {
        if m < k {
          assert all[m] == log[m];
        } else {
          assert all[m] == more[m - k];
        }
      }
    }
  }

  lemma StepMissLog(s: State, a: Action, k: nat)
    requires Global(s) && Misses(s) && CanDo(s, a) && k < |s.log + Adds(s, a)|
    ensures var log := s.log + Adds(s, a);
            && (log[k].Missed? ==> NonePublished(log, k))
            && (log[k].Published? && log[k].forGet ==> LastGetMissed(log, k, log[k].thread))
  {
    var log := s.log + Adds(s, a);
    assert forall j :: 0 <= j < |s.log| ==> log[j] == s.log[j];
    if log[k].Missed? {
      if k == |s.log| {
        NoneLast(s.log);
      }
      assert NonePublished(s.log, k);
    } else if log[k].Published? && log[k].forGet {
      MissGrows(s.log, Adds(s, a), k, log[k].thread);
    }
  }

  /** A thread that makes a gate for a get has just missed, or goes on after its miss. */
  lemma MissedBy(s: State, a: Action, t: nat)
    requires CanDo(s, a) && t < |Do(s, a).threads| && MakesForGet(Do(s, a).threads[t])
    ensures t < |s.threads|
    ensures a == Get(t) ==> s.current == None && Adds(s, a) == [Missed(t)]
    ensures a != Get(t) ==>
              MakesForGet(s.threads[t]) && forall i :: 0 <= i < |Adds(s, a)| ==> !LooksFor(Adds(s, a)[i], t)
  {
  }

  lemma StepMissThread(s: State, a: Action, t: nat)
    requires Global(s) && Misses(s) && CanDo(s, a) && t < |Do(s, a).threads| && MakesForGet(Do(s, a).threads[t])
    ensures LastGetMissed(s.log + Adds(s, a), |s.log + Adds(s, a)|, t)
  {
    MissedBy(s, a, t);
    if a == Get(t) {
      var log := s.log + [Missed(t)];
      NoneLast(s.log);
      assert log[|s.log|] == Missed(t) && NonePublished(log, |s.log|) && NoGetBetween(log, |s.log|, |log|, t);
    } else {
      MissGrows(s.log, Adds(s, a), |s.log|, t);
    }
  }

  lemma StepMisses(s: State, a: Action)
    requires Global(s) && Misses(s) && CanDo(s, a)
    ensures Misses(Do(s, a))
  {
    var s', log := Do(s, a), s.log + Adds(s, a);
    forall k | 0 <= k < |log|
      ensures log[k].Missed? ==> NonePublished(log, k)
      ensures log[k].Published? && log[k].forGet ==> LastGetMissed(log, k, log[k].thread)
    {
      StepMissLog(s, a, k);
    }
    forall t | 0 <= t < |s'.threads| && MakesForGet(s'.threads[t])
      ensures LastGetMissed(log, |log|, t)
    {
      StepMissThread(s, a, t);
    }
  }

  // ---- events

  lemma RecordedGrows(log: seq<Obs>, more: seq<Obs>, k: nat, e: nat)
    requires k <= |log| && RecordedBefore(log, k, e)
    ensures RecordedBefore(log + more, k, e) && RecordedBefore(log + more, |log + more|, e)
  {
    var j :| 0 <= j < k <= |log| && log[j].Recorded? && log[j].event == e;
    assert (log + more)[j] == log[j];
  }

  lemma StepMade(s: State, a: Action)
    requires Made(s) && CanDo(s, a)
    ensures Made(Do(s, a))
  {
    var s', more := Do(s, a), Adds(s, a);
    var log := s.log + more;
    forall e: nat | e < s'.events
      ensures RecordedBefore(log, |log|, e)
    {
      if e < s.events {
        RecordedGrows(s.log, more, |s.log|, e);
      } else {
        assert log[|s.log|].Recorded? && log[|s.log|].event == e;
      }
    }
  }

  /** A thread with an unused event had it before, or has just recorded a new one. */
  lemma PendingBy(s: State, a: Action, t: nat)
    requires CanDo(s, a) && t < |Do(s, a).threads| && Do(s, a).threads[t].RecordEvent?
    ensures t < |s.threads|
    ensures if a == MakeEvent(t) then Do(s, a).threads[t].event == s.events
            else s.threads[t] == Do(s, a).threads[t] && a != Assign(t)
  {
  }

  /** A new opening takes the event of the thread that assigns. */
  lemma OpenedBy(s: State, a: Action, k: nat)
    requires CanDo(s, a) && k < |s.log + Adds(s, a)| && (s.log + Adds(s, a))[k].Opened?
    ensures k < |s.log| ==> (s.log + Adds(s, a))[k] == s.log[k]
    ensures k >= |s.log| ==>
              && k == |s.log| && a.Assign? && s.threads[a.t].RecordEvent?
              && (s.log + Adds(s, a))[k].event == s.threads[a.t].event
  {
  }

  lemma StepPending(s: State, a: Action)
    requires Pending(s) && CanDo(s, a)
    ensures Pending(Do(s, a))
  {
    var s', log := Do(s, a), s.log + Adds(s, a);
    forall t | 0 <= t < |s'.threads| && s'.threads[t].RecordEvent?
      ensures s'.threads[t].event < s'.events
    {
      PendingBy(s, a, t);
    }
    forall t, u | 0 <= t < u < |s'.threads| && s'.threads[t].RecordEvent? && s'.threads[u].RecordEvent?
      ensures s'.threads[t].event != s'.threads[u].event
    {
      PendingBy(s, a, t);
      PendingBy(s, a, u);
    }
    forall k | 0 <= k < |log| && log[k].Opened?
      ensures log[k].event < s.events
    {
      OpenedBy(s, a, k);
    }
    forall t, k | 0 <= t < |s'.threads| && s'.threads[t].RecordEvent? && 0 <= k < |log| && log[k].Opened?
      ensures log[k].event != s'.threads[t].event
    {
      PendingBy(s, a, t);
      OpenedBy(s, a, k);
    }
  }

  lemma StepOrderAt(s: State, a: Action, k: nat)
    requires Events(s) && CanDo(s, a) && k < |s.log + Adds(s, a)|
    requires (s.log + Adds(s, a))[k].Opened? || (s.log + Adds(s, a))[k].Completed?
    ensures RecordedBefore(s.log + Adds(s, a), k, (s.log + Adds(s, a))[k].event)
  {
    var log := s.log + Adds(s, a);
    if k < |s.log| {
      assert log[k] == s.log[k];
    }
    RecordedGrows(s.log, Adds(s, a), k, log[k].event);
  }

  lemma StepOrder(s: State, a: Action)
    requires Events(s) && CanDo(s, a)
    ensures EventsInOrder(Do(s, a).log)
  {
    var log := s.log + Adds(s, a);
    assert forall j :: 0 <= j < |s.log| ==> log[j] == s.log[j];
    forall j, k | 0 <= j < k < |log| && log[j].Opened? && log[k].Opened?
      ensures log[j].event != log[k].event
    {
      OpenedBy(s, a, j);
      OpenedBy(s, a, k);
    }
    forall k | 0 <= k < |log| && (log[k].Opened? || log[k].Completed?)
      ensures RecordedBefore(log, k, log[k].event)
    {
      StepOrderAt(s, a, k);
    }
  }

  lemma StepEvents(s: State, a: Action)
    requires Events(s) && CanDo(s, a)
    ensures Events(Do(s, a))
  {
    StepMade(s, a);
    StepPending(s, a);
    StepOrder(s, a);
  }

  lemma StepInv(s: State, a: Action)
    requires Inv(s) && CanDo(s, a)
    ensures Inv(Do(s, a))
  {
    StepMisses(s, a);
    StepEvents(s, a);
    StepPublishes(s, a);
    StepFalses(s, a);
    StepRefs(s, a);
    StepGlobal(s, a);
    StepOpens(s, a);
    StepWaits(s, a);
    StepNotified(s, a);
    StepRecords(s, a);
  }

  lemma {:induction false} RunInv(s: State, acts: seq<Action>)
    requires Inv(s) && CanRun(s, acts)
    ensures Inv(Run(s, acts))
    decreases |acts|
  {
    if acts != [] {
      StepInv(s, acts[0]);
      RunInv(Do(s, acts[0]), acts[1..]);
    }
  }

  /**
   In every interleaving: a gate is opened at most once; a wait that returns True synchronised on the
   event that opened its own gate; a record opens only the gate published when it read; a get that finds
   a gate returns the one published last, and one makes a gate only if nothing had been published when it
   last looked; once a gate was published, one stays published; a thread that still waits on an open gate
   has its wake-up on the way; a wait returns False only if its time ran out while its gate was closed;
   and an event opens one gate at most, after it was recorded.
   */
  lemma GateIsSafe(n: nat, acts: seq<Action>)
    requires CanRun(Start(n), acts)
    ensures var s := Run(Start(n), acts);
            && OpensOnce(s.log) && WaitsSynchronised(s.log) && RecordsOpenCurrent(s.log) && GetsReturnCurrent(s.log)
            && ((exists k :: 0 <= k < |s.log| && s.log[k].Published?) ==> s.current.Some?)
            && Notified(s) && FalseWasClosed(s.log) && GetsMakeWhenMissing(s.log) && EventsInOrder(s.log)
  {
    StartInv(n);
    RunInv(Start(n), acts);
    var s := Run(Start(n), acts);
    if k :| 0 <= k < |s.log| && s.log[k].Published? {
      PublishedStays(s.log, k);
    }
  }

  lemma {:induction false} PublishedStays(log: seq<Obs>, k: nat)
    requires k < |log| && log[k].Published?
    ensures LastPublished(log).Some?
  {
    if k < |log| - 1 {
      PublishedStays(log[..|log| - 1], k);
    }
  }

  /** A gate keeps its event: what one state shows as open, every later state of the run shows with the same event. */
  lemma {:induction false} EventStays(s: State, acts: seq<Action>, g: nat)
    requires CanRun(s, acts) && g < |s.gates| && s.gates[g].Some?
    ensures g < |Run(s, acts).gates| && Run(s, acts).gates[g] == s.gates[g]
    decreases |acts|
  {
    if acts != [] {
      EventStays(Do(s, acts[0]), acts[1..], g);
    }
  }

  /**
   Two gets of a run, whether they found a gate or made one, return the same gate if and only if nothing
   was published after the first one up to and including the second one.
   */
  lemma GetsAgreeIff(n: nat, acts: seq<Action>, i: nat, j: nat)
    requires CanRun(Start(n), acts)
    requires var log := Run(Start(n), acts).log; i < j < |log| && IsGet(log[i]) && IsGet(log[j])
    ensures var log := Run(Start(n), acts).log;
            log[i].gate == log[j].gate <==> forall k :: i < k <= j ==> !log[k].Published?
  {
    StartInv(n);
    RunInv(Start(n), acts);
    LogGetsAgreeIff(Run(Start(n), acts).log, i, j);
  }

  lemma LogGetsAgreeIff(log: seq<Obs>, i: nat, j: nat)
    requires GetsReturnCurrent(log) && PublishesOnce(log) && i < j < |log| && IsGet(log[i]) && IsGet(log[j])
    ensures log[i].gate == log[j].gate <==> forall k :: i < k <= j ==> !log[k].Published?
  {
    GetIsLast(log, i);
    GetIsLast(log, j);
    if k :| i < k <= j && log[k].Published? {
      var p := LastPublish(log, i + 1);
      var q := LastPublish(log, j + 1);
      assert p < k <= q;
    } else {
      SamePublished(log, i + 1, j + 1);
    }
  }

  /** The gate of a get is the one published last once it has returned. */
  lemma GetIsLast(log: seq<Obs>, i: nat)
    requires i < |log| && IsGet(log[i]) && GetsReturnCurrent(log)
    ensures LastPublished(log[..i + 1]) == Some(log[i].gate)
  {
    TakeNext(log, i);
    LastPublishedSnoc(log[..i], log[i]);
  }

  /** The entry that published the current gate. */
  lemma {:induction false} LastPublish(log: seq<Obs>, n: nat) returns (q: nat)
    requires n <= |log| && LastPublished(log[..n]).Some?
    ensures q < n && log[q].Published? && LastPublished(log[..n]) == Some(log[q].gate)
    ensures forall k :: q < k < n ==> !log[k].Published?
  {
    assert log[..n][..n - 1] == log[..n - 1];
    if log[n - 1].Published? {
      q := n - 1;
    } else {
      q := LastPublish(log, n - 1);
    }
  }

  lemma {:induction false} SamePublished(log: seq<Obs>, i: nat, j: nat)
    requires i <= j <= |log| && forall k :: i <= k < j ==> !log[k].Published?
    ensures LastPublished(log[..i]) == LastPublished(log[..j])
    decreases j
  {
    if i < j {
      assert log[..j][..j - 1] == log[..j - 1] && log[..j][j - 1] == log[j - 1];
      SamePublished(log, i, j - 1);
    }
  }

  /** Two threads that both find no gate publish one each: before the first reset, gets need not agree. */
  lemma TwoGetsMayCreateTwoGates(s: State)
    requires s == Start(2)
    ensures var acts := [Get(0), Get(1)] + [Create(0), Create(1)] + [Publish(0), Publish(1)];
            && CanRun(s, acts)
            && Run(s, acts).log == [Missed(0), Missed(1)] + [Published(0, 0, true), Published(1, 1, true)]
  {
    var missed := State([], None, 0, {}, [GetMissed, GetMissed], [Missed(0), Missed(1)]);
    assert Do(Do(s, Get(0)), Get(1)) == missed;
    TwoSteps(s, Get(0), Get(1));
    var created := State([None, None], None, 0, {}, [Created(0, true), Created(1, true)], missed.log);
    assert Do(Do(missed, Create(0)), Create(1)) == created;
    TwoSteps(missed, Create(0), Create(1));
    TwoSteps(created, Publish(0), Publish(1));
    RunConcat(s, [Get(0), Get(1)], [Create(0), Create(1)]);
    RunConcat(s, [Get(0), Get(1)] + [Create(0), Create(1)], [Publish(0), Publish(1)]);
  }

  /**
   A wait that returns False does so on an open gate if and only if the gate was opened strictly between
   the moment its time ran out, which is the last such moment of its thread, and its return.
   */
  lemma FalseOnOpenIff(n: nat, acts: seq<Action>, k: nat) returns (r: nat)
    requires CanRun(Start(n), acts) && k < |Run(Start(n), acts).log| && Run(Start(n), acts).log[k].WaitFalse?
    ensures var log := Run(Start(n), acts).log;
            var t, g := log[k].thread, log[k].gate;
            && r < k && log[r] == Expired(t, g) && NoExpiryBetween(log, r, k, t)
            && (!ClosedBefore(log, k, g) <==> exists j, e, u :: r < j < k && log[j] == Opened(u, g, e))
  {
    GateIsSafe(n, acts);
    var log := Run(Start(n), acts).log;
    r := LogFalseOnOpen(log, k, log[k].thread, log[k].gate);
  }

  lemma LogFalseOnOpen(log: seq<Obs>, k: nat, t: nat, g: nat) returns (r: nat)
    requires k <= |log| && ExpiredClosed(log, k, t, g)
    ensures r < k && log[r] == Expired(t, g) && NoExpiryBetween(log, r, k, t)
    ensures !ClosedBefore(log, k, g) <==> exists j, e, u :: r < j < k && log[j] == Opened(u, g, e)
  {
    r :| 0 <= r < k <= |log| && log[r] == Expired(t, g) && ClosedBefore(log, r, g) && NoExpiryBetween(log, r, k, t);
    if j :| 0 <= j < k && log[j].Opened? && log[j].gate == g {
      assert log[j] == Opened(log[j].thread, g, log[j].event);
    }
  }

  /** One thread resets the gate, and the other waits on it. */
  lemma WaiterIsReached(s: State)
    requires s == Start(2)
    ensures var acts := [Create(1), Publish(1)] + [Wait(0, 0)];
            && CanRun(s, acts)
            && Run(s, acts) == State([None], Some(0), 0, {}, [Waiting(0, false), Idle], [Published(1, 0, false)])
  {
    var reset := State([None], Some(0), 0, {}, [Idle, Idle], [Published(1, 0, false)]);
    assert Do(Do(s, Create(1)), Publish(1)) == reset;
    TwoSteps(s, Create(1), Publish(1));
    OneStep(reset, Wait(0, 0));
    RunConcat(s, [Create(1), Publish(1)], [Wait(0, 0)]);
  }

  /** Its time runs out, and the gate is opened before it has the lock again. */
  lemma WaiterMissesOpening(s: State)
    requires s == State([None], Some(0), 0, {}, [Waiting(0, false), Idle], [Published(1, 0, false)])
    ensures var acts := [Expire(0), ReadGate(1)] + [MakeEvent(1), Assign(1)] + [ReturnFalse(0)];
            && CanRun(s, acts) && Run(s, acts).gates == [Some(0)]
            && Run(s, acts).log
               == s.log + [Expired(0, 0), ReadForRecord(1, Some(0))] + [Recorded(1, 0), Opened(1, 0, 0)]
                  + [WaitFalse(0, 0)]
  {
    var expired := s.(threads := [TimedOut(0), RecordRead(0)],
                      log := s.log + [Expired(0, 0), ReadForRecord(1, Some(0))]);
    assert Do(Do(s, Expire(0)), ReadGate(1)) == expired;
    TwoSteps(s, Expire(0), ReadGate(1));
    var afterOpen := expired.(gates := [Some(0)], events := 1, threads := [TimedOut(0), Idle],
                              log := expired.log + [Recorded(1, 0), Opened(1, 0, 0)]);
    assert Do(Do(expired, MakeEvent(1)), Assign(1)) == afterOpen;
    TwoSteps(expired, MakeEvent(1), Assign(1));
    OneStep(afterOpen, ReturnFalse(0));
    RunConcat(s, [Expire(0), ReadGate(1)], [MakeEvent(1), Assign(1)]);
    RunConcat(s, [Expire(0), ReadGate(1)] + [MakeEvent(1), Assign(1)], [ReturnFalse(0)]);
  }

  /** From the start, a wait returns False on a gate that was opened after its time had run out. */
  lemma FalseOnOpenGate(s: State)
    requires s == Start(2)
    ensures var acts := ([Create(1), Publish(1)] + [Wait(0, 0)])
                        + ([Expire(0), ReadGate(1)] + [MakeEvent(1), Assign(1)] + [ReturnFalse(0)]);
            && CanRun(s, acts) && Run(s, acts).gates == [Some(0)]
            && Run(s, acts).log == [Published(1, 0, false)] + [Expired(0, 0), ReadForRecord(1, Some(0))]
                                   + [Recorded(1, 0), Opened(1, 0, 0)] + [WaitFalse(0, 0)]
  {
    var reset := [Create(1), Publish(1)] + [Wait(0, 0)];
    var missed := [Expire(0), ReadGate(1)] + [MakeEvent(1), Assign(1)] + [ReturnFalse(0)];
    WaiterIsReached(s);
    WaiterMissesOpening(Run(s, reset));
    RunConcat(s, reset, missed);
  }

  lemma OneStep(s: State, a: Action)
    requires CanDo(s, a)
    ensures CanRun(s, [a]) && Run(s, [a]) == Do(s, a)
  {
    assert [a][1..] == [];
  }

  lemma TwoSteps(s: State, a: Action, b: Action)
    requires CanDo(s, a) && CanDo(Do(s, a), b)
    ensures CanRun(s, [a, b]) && Run(s, [a, b]) == Do(Do(s, a), b)
  {
    assert [a, b][1..] == [b] && [b][1..] == [];
    assert CanRun(Do(s, a), [b]) && Run(Do(s, a), [b]) == Do(Do(s, a), b);
  }

  lemma {:induction false} RunConcat(s: State, a: seq<Action>, b: seq<Action>)
    requires CanRun(s, a) && CanRun(Run(s, a), b)
    ensures CanRun(s, a + b) && Run(s, a + b) == Run(Run(s, a), b)
    decreases |a|
  {
    if a == [] {
      assert a + b == b;
    } else {
      assert (a + b)[1..] == a[1..] + b;
      RunConcat(Do(s, a[0]), a[1..], b);
    }
  }
}
