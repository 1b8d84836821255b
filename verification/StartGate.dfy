/**
 The attention start gate as a step system. One step is what a thread does under one lock, or between
 two locks; a run is any interleaving of such steps, and `log` records what callers can observe.
 */
module StartGate {
  import opened Prelude

  /** Where a thread is. Gates and events are numbered in the order of their creation. */
  datatype Pc =
    | Idle
    | RecordRead(gate: nat)                  // record: has read the published gate
    | RecordEvent(gate: nat, event: nat)     // record: has recorded an event on its stream
    | Waiting(gate: nat, notified: bool)     // wait: inside condition.wait
    | TimedOut(gate: nat)                    // wait: its time ran out, it takes the lock back to return False
    | Synchronizing(gate: nat, event: nat)   // wait: inside event.synchronize
    | GetMissed                              // get: has read that no gate is published
    | Created(gate: nat, forGet: bool)       // reset, or get after a miss: gate made, not yet published

  datatype Obs =
    | ReadForRecord(thread: nat, read: Option<nat>)
    | Recorded(thread: nat, event: nat)
    | Opened(thread: nat, gate: nat, event: nat)
    | WaitTrue(thread: nat, gate: nat, event: nat)
    | Expired(thread: nat, gate: nat)
    | WaitFalse(thread: nat, gate: nat)
    | Published(thread: nat, gate: nat, forGet: bool)
    | Missed(thread: nat)
    | Got(thread: nat, gate: nat)
    | Completed(event: nat)

  datatype State = State(
    gates: seq<Option<nat>>,    // the event of each gate
    current: Option<nat>,       // the published gate
    events: nat,                // how many events were recorded
    complete: set<nat>,         // the events the device has reached
    threads: seq<Pc>,
    log: seq<Obs>)

  datatype Action =
    | ReadGate(t: nat)
    | MakeEvent(t: nat)
    | Assign(t: nat)
    | Wait(t: nat, gate: nat)
    | Wake(t: nat)
    | Expire(t: nat)
    | ReturnFalse(t: nat)
    | SyncDone(t: nat)
    | Get(t: nat)
    | Create(t: nat)
    | Publish(t: nat)
    | Complete(event: nat)

  function Start(n: nat): State {
    State([], None, 0, {}, seq(n, _ => Idle), [])
  }

  predicate CanDo(s: State, a: Action) {
    if a.Complete? then a.event < s.events
    else
      && a.t < |s.threads|
      && match a
         case ReadGate(t) => s.threads[t].Idle?
         case MakeEvent(t) => s.threads[t].RecordRead?
         case Assign(t) => s.threads[t].RecordEvent? && s.threads[t].gate < |s.gates|
         case Wait(t, g) => s.threads[t].Idle? && g < |s.gates|
         case Wake(t) => s.threads[t].Waiting? && s.threads[t].notified && s.threads[t].gate < |s.gates|
         case Expire(t) => s.threads[t].Waiting? && !s.threads[t].notified
         case ReturnFalse(t) => s.threads[t].TimedOut?
         case SyncDone(t) => s.threads[t].Synchronizing? && s.threads[t].event in s.complete
         case Get(t) => s.threads[t].Idle?
         case Create(t) => s.threads[t].Idle? || s.threads[t].GetMissed?
         case Publish(t) => s.threads[t].Created?
  }

  /** `notify_all` on the condition of gate g. */
  function NotifyAll(threads: seq<Pc>, g: nat): (r: seq<Pc>)
    ensures |r| == |threads|
    ensures forall i :: 0 <= i < |r| ==>
              r[i] == if threads[i].Waiting? && threads[i].gate == g then Waiting(g, true) else threads[i]
  {
    seq(|threads|, i requires 0 <= i < |threads| =>
      if threads[i].Waiting? && threads[i].gate == g then Waiting(g, true) else threads[i])
  }

  /** The loop of `wait`, with the lock held: go on to the event, or wait again. */
  function Check(s: State, g: nat): Pc
    requires g < |s.gates|
  {
    if s.gates[g].Some? then Synchronizing(g, s.gates[g].value) else Waiting(g, false)
  }

  function Move(s: State, t: nat, pc: Pc): State
    requires t < |s.threads|
  {
    s.(threads := s.threads[t := pc])
  }

  function Log(s: State, o: Obs): State {
    s.(log := s.log + [o])
  }

  function Do(s: State, a: Action): State
    requires CanDo(s, a)
  {
    match a
    case ReadGate(t) =>
      var s' := Log(s, ReadForRecord(t, s.current));
      if s.current.Some? then Move(s', t, RecordRead(s.current.value)) else s'
    case MakeEvent(t) =>
      Log(Move(s, t, RecordEvent(s.threads[t].gate, s.events)).(events := s.events + 1), Recorded(t, s.events))
    case Assign(t) =>
      var g, e := s.threads[t].gate, s.threads[t].event;
      if s.gates[g].None?
      then Log(Move(s, t, Idle).(gates := s.gates[g := Some(e)], threads := NotifyAll(s.threads[t := Idle], g)),
               Opened(t, g, e))
      else Move(s, t, Idle)
    case Wait(t, g) => Move(s, t, Check(s, g))
    case Wake(t) => Move(s, t, Check(s, s.threads[t].gate))
    case Expire(t) => Log(Move(s, t, TimedOut(s.threads[t].gate)), Expired(t, s.threads[t].gate))
    case ReturnFalse(t) => Log(Move(s, t, Idle), WaitFalse(t, s.threads[t].gate))
    case SyncDone(t) => Log(Move(s, t, Idle), WaitTrue(t, s.threads[t].gate, s.threads[t].event))
    case Get(t) =>
      if s.current.Some? then Log(s, Got(t, s.current.value)) else Log(Move(s, t, GetMissed), Missed(t))
    case Create(t) => Move(s, t, Created(|s.gates|, s.threads[t].GetMissed?)).(gates := s.gates + [None])
    case Publish(t) =>
      var g, forGet := s.threads[t].gate, s.threads[t].forGet;
      Log(Move(s, t, Idle).(current := Some(g)), Published(t, g, forGet))
    case Complete(e) => Log(s.(complete := s.complete + {e}), Completed(e))
  }

  ghost predicate CanRun(s: State, acts: seq<Action>)
    decreases |acts|
  {
    acts == [] || (CanDo(s, acts[0]) && CanRun(Do(s, acts[0]), acts[1..]))
  }

  ghost function Run(s: State, acts: seq<Action>): State
    requires CanRun(s, acts)
    decreases |acts|
  {
    if acts == [] then s else Run(Do(s, acts[0]), acts[1..])
  }

  // ---- what the log shows

  /** The gate a reader of the global would have seen after the log. */
  function LastPublished(log: seq<Obs>): Option<nat> {
    if log == [] then None
    else if log[|log| - 1].Published? then Some(log[|log| - 1].gate)
    else LastPublished(log[..|log| - 1])
  }

  /** An event is assigned to a gate at most once. */
  ghost predicate OpensOnce(log: seq<Obs>) {
    forall j, k :: 0 <= j < k < |log| && log[j].Opened? && log[k].Opened? ==> log[j].gate != log[k].gate
  }

  ghost predicate OpenedBefore(log: seq<Obs>, k: nat, g: nat, e: nat) {
    exists j :: 0 <= j < k <= |log| && log[j].Opened? && log[j].gate == g && log[j].event == e
  }

  ghost predicate CompletedBefore(log: seq<Obs>, k: nat, e: nat) {
    exists j :: 0 <= j < k <= |log| && log[j] == Completed(e)
  }

  /** A wait that returns True did so on the event that opened its gate, after the device reached it. */
  ghost predicate WaitsSynchronised(log: seq<Obs>) {
    forall k :: 0 <= k < |log| && log[k].WaitTrue? ==>
      OpenedBefore(log, k, log[k].gate, log[k].event) && CompletedBefore(log, k, log[k].event)
  }

  ghost predicate RecordedBefore(log: seq<Obs>, k: nat, e: nat) {
    exists j :: 0 <= j < k <= |log| && log[j].Recorded? && log[j].event == e
  }

  /** An event is recorded once, opens one gate at most, and is neither used nor complete before it is recorded. */
  ghost predicate EventsInOrder(log: seq<Obs>) {
    && (forall j, k :: 0 <= j < k < |log| && log[j].Recorded? && log[k].Recorded? ==> log[j].event != log[k].event)
    && (forall j, k :: 0 <= j < k < |log| && log[j].Opened? && log[k].Opened? ==> log[j].event != log[k].event)
    && (forall k :: 0 <= k < |log| && (log[k].Opened? || log[k].Completed?) ==> RecordedBefore(log, k, log[k].event))
  }

  /** The last read of thread t before k saw gate g, which was the published one. */
  ghost predicate LastReadWas(log: seq<Obs>, k: nat, t: nat, g: nat) {
    exists r :: 0 <= r < k <= |log| && log[r] == ReadForRecord(t, Some(g)) && LastPublished(log[..r]) == Some(g)
                && NoReadBetween(log, r, k, t)
  }

  ghost predicate NoReadBetween(log: seq<Obs>, r: int, k: nat, t: nat) {
    forall m :: 0 <= m < |log| && r < m < k ==> !(log[m].ReadForRecord? && log[m].thread == t)
  }

  /** A record opens only the gate that was published when it read. */
  ghost predicate RecordsOpenCurrent(log: seq<Obs>) {
    forall k :: 0 <= k < |log| && log[k].Opened? ==> LastReadWas(log, k, log[k].thread, log[k].gate)
  }

  /** A get that finds a gate returns the one published last. */
  ghost predicate GetsReturnCurrent(log: seq<Obs>) {
    forall k :: 0 <= k < |log| && log[k].Got? ==> LastPublished(log[..k]) == Some(log[k].gate)
  }

  ghost predicate NonePublished(log: seq<Obs>, r: nat) {
    forall j :: 0 <= j < r <= |log| ==> !log[j].Published?
  }

  /** Thread t has looked for a published gate in a get. */
  predicate LooksFor(o: Obs, t: nat) {
    (o.Missed? || o.Got?) && o.thread == t
  }

  ghost predicate NoGetBetween(log: seq<Obs>, r: int, k: nat, t: nat) {
    forall m :: 0 <= m < |log| && r < m < k ==> !LooksFor(log[m], t)
  }

  /** The last look of thread t before k, in a get, was when nothing had been published. */
  ghost predicate LastGetMissed(log: seq<Obs>, k: nat, t: nat) {
    exists r :: 0 <= r < k <= |log| && log[r] == Missed(t) && NonePublished(log, r) && NoGetBetween(log, r, k, t)
  }

  /** A get misses only before the first publication, and makes a gate only after it has missed. */
  ghost predicate GetsMakeWhenMissing(log: seq<Obs>) {
    && (forall k :: 0 <= k < |log| && log[k].Missed? ==> NonePublished(log, k))
    && (forall k :: 0 <= k < |log| && log[k].Published? && log[k].forGet ==> LastGetMissed(log, k, log[k].thread))
  }

  /** A get returned: the published gate it found, or the gate it made and published itself. */
  predicate IsGet(o: Obs) {
    o.Got? || (o.Published? && o.forGet)
  }

  /** No gate is published twice. */
  ghost predicate PublishesOnce(log: seq<Obs>) {
    forall j, k :: 0 <= j < k < |log| && log[j].Published? && log[k].Published? ==> log[j].gate != log[k].gate
  }

  ghost predicate ClosedBefore(log: seq<Obs>, r: nat, g: nat) {
    forall j :: 0 <= j < r <= |log| && log[j].Opened? ==> log[j].gate != g
  }

  /** The time of thread t last ran out before k, on gate g and while that gate was closed. */
  ghost predicate ExpiredClosed(log: seq<Obs>, k: nat, t: nat, g: nat) {
    exists r :: 0 <= r < k <= |log| && log[r] == Expired(t, g) && ClosedBefore(log, r, g)
                && NoExpiryBetween(log, r, k, t)
  }

  ghost predicate NoExpiryBetween(log: seq<Obs>, r: int, k: nat, t: nat) {
    forall m :: 0 <= m < |log| && r < m < k ==> !(log[m].Expired? && log[m].thread == t)
  }

  /** A wait that returns False had its time run out while its gate was closed. */
  ghost predicate FalseWasClosed(log: seq<Obs>) {
    forall k :: 0 <= k < |log| && log[k].WaitFalse? ==> ExpiredClosed(log, k, log[k].thread, log[k].gate)
  }
}
