/**
 The extraction benchmark's client pool: N clients take prompts from one queue that ends with one
 sentinel per client. A step is one client's next action, so a run is any interleaving of them.
 */
module ClientPool {
  import opened Prelude

  datatype Item = Prompt(idx: nat) | Sentinel

  datatype Client = AtGet | Working(idx: nat) | Finished

  datatype State = State(queue: seq<Item>, clients: seq<Client>, results: seq<nat>, tasksDone: nat)

  // ---- set-up

  function Prompts(lo: nat, hi: nat): (r: seq<Item>)
    requires lo <= hi
    ensures |r| == hi - lo
  {
    seq(hi - lo, i requires 0 <= i => Prompt(lo + i))
  }

  function Sentinels(n: nat): (r: seq<Item>)
    ensures |r| == n
  {
    seq(n, _ => Sentinel)
  }

  function Start(prompts: nat, clients: nat): State {
    State(Prompts(0, prompts) + Sentinels(clients), seq(clients, _ => AtGet), [], 0)
  }

  datatype Error = NoWorkers

  /** Creating the thread pool for zero clients raises before any client exists. */
  function Begin(prompts: nat, clients: nat): Outcome<State, Error> {
    if clients == 0 then Raised(NoWorkers) else Ok(Start(prompts, clients))
  }

  // ---- steps

  /** A client can move when it works, or when it waits and the queue is not empty. */
  predicate Enabled(s: State, i: nat) {
    i < |s.clients| && (s.clients[i].Working? || (s.clients[i].AtGet? && s.queue != []))
  }

  function Step(s: State, i: nat): State
    requires Enabled(s, i)
  {
    if s.clients[i].Working? then
      s.(clients := s.clients[i := AtGet], results := s.results + [s.clients[i].idx], tasksDone := s.tasksDone + 1)
    else
      match s.queue[0]
      case Prompt(idx) => s.(queue := s.queue[1..], clients := s.clients[i := Working(idx)])
      case Sentinel => s.(queue := s.queue[1..], clients := s.clients[i := Finished], tasksDone := s.tasksDone + 1)
  }

  /** The schedule is a possible run from s. */
  ghost predicate CanRun(s: State, schedule: seq<nat>)
    decreases |schedule|
  {
    schedule == [] || (Enabled(s, schedule[0]) && CanRun(Step(s, schedule[0]), schedule[1..]))
  }

  ghost function Run(s: State, schedule: seq<nat>): State
    requires CanRun(s, schedule)
    decreases |schedule|
  {
    if schedule == [] then s else Run(Step(s, schedule[0]), schedule[1..])
  }

  // ---- the invariant

  function FinishedCount(clients: seq<Client>): nat {
    if clients == [] then 0
    else FinishedCount(clients[..|clients| - 1]) + if clients[|clients| - 1].Finished? then 1 else 0
  }

  /** The prompt a client works on, as a collection. */
  function WorkOf(c: Client): multiset<nat> {
    if c.Working? then multiset{c.idx} else multiset{}
  }

  function WorkingIds(clients: seq<Client>): multiset<nat> {
    if clients == [] then multiset{} else WorkingIds(clients[..|clients| - 1]) + WorkOf(clients[|clients| - 1])
  }

  /** The prompt numbers below n, each once. */
  function Below(n: nat): multiset<nat> {
    if n == 0 then multiset{} else Below(n - 1) + multiset{n - 1}
  }

  /** `taken` prompts have left the queue; sentinels leave only after all prompts. */
  ghost predicate Inv(s: State, prompts: nat, clients: nat, taken: nat) {
    && |s.clients| == clients && taken <= prompts && FinishedCount(s.clients) <= clients
    && s.queue == Prompts(taken, prompts) + Sentinels(clients - FinishedCount(s.clients))
    && (FinishedCount(s.clients) > 0 ==> taken == prompts)
    && multiset(s.results) + WorkingIds(s.clients) == Below(taken)
    && s.tasksDone == |s.results| + FinishedCount(s.clients)
  }

  lemma {:induction false} UpdateFinished(clients: seq<Client>, i: nat, c: Client)
    requires i < |clients|
    ensures FinishedCount(clients[i := c]) + (if clients[i].Finished? then 1 else 0) ==
            FinishedCount(clients) + if c.Finished? then 1 else 0
  {
    var k := |clients| - 1;
    if i == k {
      assert clients[i := c][..k] == clients[..k];
    } else {
      UpdateFinished(clients[..k], i, c);
      assert clients[i := c][..k] == clients[..k][i := c];
    }
  }

  lemma WorkSnoc(init: seq<Client>, last: Client)
    ensures WorkingIds(init + [last]) == WorkingIds(init) + WorkOf(last)
  {
    assert (init + [last])[..|init|] == init;
  }

  lemma {:induction false} UpdateWork(clients: seq<Client>, i: nat, c: Client)
    requires i < |clients|
    ensures WorkingIds(clients[i := c]) + WorkOf(clients[i]) == WorkingIds(clients) + WorkOf(c)
  {
    var init, last := clients[..|clients| - 1], clients[|clients| - 1];
    SplitLast(clients);
    WorkSnoc(init, last);
    if i == |init| {
      assert clients[i := c] == init + [c];
      WorkSnoc(init, c);
      Swap(WorkingIds(init), WorkOf(c), WorkOf(last));
    } else {
      UpdateWork(init, i, c);
      assert clients[i := c] == init[i := c] + [last];
      WorkSnoc(init[i := c], last);
      Reorder(WorkingIds(init[i := c]), WorkOf(clients[i]), WorkingIds(init), WorkOf(c), WorkOf(last));
    }
  }

  lemma Swap(a: multiset<nat>, x: multiset<nat>, y: multiset<nat>)
    ensures (a + x) + y == (a + y) + x
  {
  }

  lemma UpdateCounts(clients: seq<Client>, i: nat, c: Client)
    requires i < |clients|
    ensures FinishedCount(clients[i := c]) + (if clients[i].Finished? then 1 else 0) ==
            FinishedCount(clients) + if c.Finished? then 1 else 0
    ensures WorkingIds(clients[i := c]) + WorkOf(clients[i]) == WorkingIds(clients) + WorkOf(c)
  {
    UpdateFinished(clients, i, c);
    UpdateWork(clients, i, c);
  }

  lemma Reorder(a: multiset<nat>, x: multiset<nat>, b: multiset<nat>, y: multiset<nat>, last: multiset<nat>)
    requires a + x == b + y
    ensures (a + last) + x == (b + last) + y
  {
    assert (a + last) + x == (a + x) + last;
    assert (b + last) + y == (b + y) + last;
  }

  lemma NoWork(a: multiset<nat>)
    ensures a + multiset{} == a
  {
  }

  lemma {:induction false} AllFinishedIff(clients: seq<Client>)
    ensures FinishedCount(clients) <= |clients|
    ensures FinishedCount(clients) == |clients| <==> forall i :: 0 <= i < |clients| ==> clients[i].Finished?
  {
    if clients != [] {
      var init, last := clients[..|clients| - 1], clients[|clients| - 1];
      AllFinishedIff(init);
      assert forall i :: 0 <= i < |init| ==> init[i] == clients[i];
    }
  }

  lemma {:induction false} FinishedDoNoWork(clients: seq<Client>)
    requires forall i :: 0 <= i < |clients| ==> clients[i].Finished?
    ensures WorkingIds(clients) == multiset{}
  {
    if clients != [] {
      FinishedDoNoWork(clients[..|clients| - 1]);
    }
  }

  lemma {:induction false} StartCounts(n: nat)
    ensures FinishedCount(seq(n, _ => AtGet)) == 0 && WorkingIds(seq(n, _ => AtGet)) == multiset{}
  {
    if n > 0 {
      StartCounts(n - 1);
      assert seq(n, _ => AtGet)[..n - 1] == seq(n - 1, _ => AtGet);
    }
  }

  lemma StartInv(prompts: nat, clients: nat)
    ensures Inv(Start(prompts, clients), prompts, clients, 0)
  {
    StartCounts(clients);
  }

  /** The first item of the queue, and what is left after it. */
  lemma QueueHead(lo: nat, hi: nat, n: nat)
    requires lo <= hi
    ensures var q := Prompts(lo, hi) + Sentinels(n);
            && (lo < hi ==> q[0] == Prompt(lo) && q[1..] == Prompts(lo + 1, hi) + Sentinels(n))
            && (lo == hi && n > 0 ==> q[0] == Sentinel && q[1..] == Prompts(hi, hi) + Sentinels(n - 1))
  {
  }

  lemma FinishAccounts(results: multiset<nat>, work: multiset<nat>, before: multiset<nat>, x: nat)
    requires work + multiset{x} == before
    ensures (results + multiset{x}) + work == results + before
  {
  }

  lemma FinishCounts(s: State, i: nat)
    requires i < |s.clients| && s.clients[i].Working?
    ensures FinishedCount(s.clients[i := AtGet]) == FinishedCount(s.clients)
    ensures WorkingIds(s.clients[i := AtGet]) + multiset{s.clients[i].idx} == WorkingIds(s.clients)
  {
    UpdateCounts(s.clients, i, AtGet);
    NoWork(WorkingIds(s.clients));
  }

  lemma FinishKeepsInv(s: State, i: nat, prompts: nat, clients: nat, taken: nat)
    requires Inv(s, prompts, clients, taken) && i < |s.clients| && s.clients[i].Working?
    ensures Inv(Step(s, i), prompts, clients, taken)
  {
    var x := s.clients[i].idx;
    FinishCounts(s, i);
    FinishAccounts(multiset(s.results), WorkingIds(s.clients[i := AtGet]), WorkingIds(s.clients), x);
    assert multiset(s.results + [x]) == multiset(s.results) + multiset{x};
  }

  /** Taking a prompt moves it from the queue to the work. */
  lemma TakeCounts(s: State, i: nat, taken: nat)
    requires i < |s.clients| && s.clients[i].AtGet?
    ensures FinishedCount(s.clients[i := Working(taken)]) == FinishedCount(s.clients)
    ensures WorkingIds(s.clients[i := Working(taken)]) == WorkingIds(s.clients) + multiset{taken}
  {
    UpdateCounts(s.clients, i, Working(taken));
    NoWork(WorkingIds(s.clients[i := Working(taken)]));
  }

  lemma TakeAccounts(results: multiset<nat>, work: multiset<nat>, after: multiset<nat>, taken: nat)
    requires results + work == Below(taken) && after == work + multiset{taken}
    ensures results + after == Below(taken + 1)
  {
    assert results + after == (results + work) + multiset{taken};
  }

  lemma TakeStepIs(s: State, i: nat, taken: nat, prompts: nat, left: nat)
    requires i < |s.clients| && s.clients[i].AtGet? && taken < prompts
    requires s.queue == Prompts(taken, prompts) + Sentinels(left)
    ensures Enabled(s, i)
    ensures Step(s, i) == s.(queue := Prompts(taken + 1, prompts) + Sentinels(left),
                             clients := s.clients[i := Working(taken)])
  {
    QueueHead(taken, prompts, left);
  }

  lemma TakeKeepsInv(s: State, i: nat, prompts: nat, clients: nat, taken: nat)
    requires Inv(s, prompts, clients, taken) && i < |s.clients| && s.clients[i].AtGet? && taken < prompts
    ensures Enabled(s, i) && Inv(Step(s, i), prompts, clients, taken + 1)
  {
    TakeStepIs(s, i, taken, prompts, clients - FinishedCount(s.clients));
    TakeCounts(s, i, taken);
    TakeAccounts(multiset(s.results), WorkingIds(s.clients), WorkingIds(s.clients[i := Working(taken)]), taken);
  }

  lemma StopKeepsInv(s: State, i: nat, prompts: nat, clients: nat)
    requires Inv(s, prompts, clients, prompts) && i < |s.clients| && s.clients[i].AtGet?
    ensures Enabled(s, i) && Inv(Step(s, i), prompts, clients, prompts)
  {
    assert FinishedCount(s.clients) < clients by {
      AllFinishedIff(s.clients);
    }
    QueueHead(prompts, prompts, clients - FinishedCount(s.clients));
    UpdateCounts(s.clients, i, Finished);
    NoWork(WorkingIds(s.clients[i := Finished]));
    NoWork(WorkingIds(s.clients));
  }

  /** Every step keeps the invariant; it says how many prompts are taken afterwards. */
  lemma StepInv(s: State, i: nat, prompts: nat, clients: nat, taken: nat) returns (after: nat)
    requires Inv(s, prompts, clients, taken) && Enabled(s, i)
    ensures Inv(Step(s, i), prompts, clients, after)
    ensures after == if s.clients[i].AtGet? && taken < prompts then taken + 1 else taken
  {
    if s.clients[i].Working? {
      FinishKeepsInv(s, i, prompts, clients, taken);
      after := taken;
    } else if taken < prompts {
      TakeKeepsInv(s, i, prompts, clients, taken);
      after := taken + 1;
    } else {
      StopKeepsInv(s, i, prompts, clients);
      after := taken;
    }
  }

  /** Every state of every run satisfies the invariant. */
  lemma {:induction false} RunInv(s: State, schedule: seq<nat>, prompts: nat, clients: nat, taken: nat)
    returns (after: nat)
    requires Inv(s, prompts, clients, taken) && CanRun(s, schedule)
    ensures Inv(Run(s, schedule), prompts, clients, after)
    decreases |schedule|
  {
    if schedule == [] {
      after := taken;
    } else {
      var t := StepInv(s, schedule[0], prompts, clients, taken);
      after := RunInv(Step(s, schedule[0]), schedule[1..], prompts, clients, t);
    }
  }

  /** A client that waits for an item finds one: no run blocks a live client on an empty queue. */
  lemma NeverBlocks(prompts: nat, clients: nat, schedule: seq<nat>, i: nat)
    requires CanRun(Start(prompts, clients), schedule)
    requires i < |Run(Start(prompts, clients), schedule).clients|
    requires Run(Start(prompts, clients), schedule).clients[i].AtGet?
    ensures Run(Start(prompts, clients), schedule).queue != []
  {
    StartInv(prompts, clients);
    var taken := RunInv(Start(prompts, clients), schedule, prompts, clients, 0);
    AllFinishedIff(Run(Start(prompts, clients), schedule).clients);
  }

  // ---- termination

  /** Two steps for each prompt still queued, one for each other item and each prompt at work. */
  ghost function Rank(s: State, prompts: nat, clients: nat, taken: nat): nat
    requires Inv(s, prompts, clients, taken)
  {
    2 * (prompts - taken) + (clients - FinishedCount(s.clients)) + |WorkingIds(s.clients)|
  }

  lemma StepRank(s: State, i: nat, prompts: nat, clients: nat, taken: nat) returns (after: nat)
    requires Inv(s, prompts, clients, taken) && Enabled(s, i)
    ensures Inv(Step(s, i), prompts, clients, after)
    ensures Rank(Step(s, i), prompts, clients, after) == Rank(s, prompts, clients, taken) - 1
  {
    after := StepInv(s, i, prompts, clients, taken);
    if s.clients[i].Working? {
      UpdateCounts(s.clients, i, AtGet);
      NoWork(WorkingIds(s.clients));
      assert WorkingIds(s.clients[i := AtGet]) + multiset{s.clients[i].idx} == WorkingIds(s.clients);
    } else {
      QueueHead(taken, prompts, clients - FinishedCount(s.clients));
      if taken < prompts {
        UpdateCounts(s.clients, i, Working(taken));
        NoWork(WorkingIds(s.clients[i := Working(taken)]));
        assert WorkingIds(s.clients[i := Working(taken)]) == WorkingIds(s.clients) + multiset{taken};
      } else {
        UpdateCounts(s.clients, i, Finished);
        NoWork(WorkingIds(s.clients[i := Finished]));
        NoWork(WorkingIds(s.clients));
        assert WorkingIds(s.clients[i := Finished]) == WorkingIds(s.clients);
      }
    }
  }

  lemma {:induction false} RunRank(s: State, schedule: seq<nat>, prompts: nat, clients: nat, taken: nat)
    returns (after: nat)
    requires Inv(s, prompts, clients, taken) && CanRun(s, schedule)
    ensures Inv(Run(s, schedule), prompts, clients, after)
    ensures Rank(Run(s, schedule), prompts, clients, after) + |schedule| == Rank(s, prompts, clients, taken)
    decreases |schedule|
  {
    if schedule == [] {
      after := taken;
    } else {
      var t := StepRank(s, schedule[0], prompts, clients, taken);
      after := RunRank(Step(s, schedule[0]), schedule[1..], prompts, clients, t);
    }
  }

  ghost predicate Stuck(s: State) {
    forall i :: 0 <= i < |s.clients| ==> !Enabled(s, i)
  }

  /** No run is longer than two steps a prompt and one a client. */
  lemma RunsAreBounded(prompts: nat, clients: nat, schedule: seq<nat>)
    requires CanRun(Start(prompts, clients), schedule)
    ensures |schedule| <= 2 * prompts + clients
  {
    StartInv(prompts, clients);
    StartCounts(clients);
    var taken := RunRank(Start(prompts, clients), schedule, prompts, clients, 0);
  }

  /** Finished prompts stay where they are: results are only ever added at the end. */
  lemma {:induction false} ResultsGrow(s: State, schedule: seq<nat>)
    requires CanRun(s, schedule)
    ensures s.results <= Run(s, schedule).results
    decreases |schedule|
  {
    if schedule != [] {
      ResultsGrow(Step(s, schedule[0]), schedule[1..]);
    }
  }

  /**
   A run that can go no further has taken exactly that many steps, has every prompt processed exactly
   once and nothing else, every client finished on its own sentinel, the queue empty and every item
   marked done.
   */
  lemma RunsComplete(prompts: nat, clients: nat, start: State, schedule: seq<nat>)
    requires Begin(prompts, clients) == Ok(start) && CanRun(start, schedule) && Stuck(Run(start, schedule))
    ensures var s := Run(start, schedule);
            && |schedule| == 2 * prompts + clients
            && s.queue == [] && s.tasksDone == prompts + clients
            && |s.results| == prompts && (forall x: nat :: multiset(s.results)[x] == if x < prompts then 1 else 0)
            && |s.clients| == clients && forall i :: 0 <= i < clients ==> s.clients[i].Finished?
  {
    StartInv(prompts, clients);
    StartCounts(clients);
    var taken := RunRank(start, schedule, prompts, clients, 0);
    var s := Run(start, schedule);
    forall i | 0 <= i < clients
      ensures s.clients[i].Finished?
    {
      assert !Enabled(s, i);
      if s.clients[i].AtGet? {
        NeverBlocks(prompts, clients, schedule, i);
      }
    }
    FinishedState(s, prompts, clients, taken);
  }

  /** When every client has finished, the account of the invariant is closed. */
  lemma FinishedState(s: State, prompts: nat, clients: nat, taken: nat)
    requires Inv(s, prompts, clients, taken) && clients > 0 && forall i :: 0 <= i < clients ==> s.clients[i].Finished?
    ensures taken == prompts && FinishedCount(s.clients) == clients && WorkingIds(s.clients) == multiset{}
    ensures s.queue == [] && s.tasksDone == prompts + clients && |s.results| == prompts
    ensures forall x: nat :: multiset(s.results)[x] == if x < prompts then 1 else 0
  {
    AllFinishedIff(s.clients);
    FinishedDoNoWork(s.clients);
    ResultsOnce(multiset(s.results), prompts);
    assert |multiset(s.results)| == |s.results|;
  }

  lemma ResultsOnce(results: multiset<nat>, prompts: nat)
    requires results + multiset{} == Below(prompts)
    ensures |results| == prompts && forall x: nat :: results[x] == if x < prompts then 1 else 0
  {
    NoWork(results);
    BelowSize(prompts);
    forall x: nat
      ensures results[x] == if x < prompts then 1 else 0
    {
      BelowOnce(prompts, x);
    }
  }

  lemma {:induction false} BelowSize(n: nat)
    ensures |Below(n)| == n
  {
    if n > 0 {
      BelowSize(n - 1);
    }
  }

  /** Each prompt number below n is in Below(n) once, and nothing else is. */
  lemma {:induction false} BelowOnce(n: nat, x: nat)
    ensures Below(n)[x] == if x < n then 1 else 0
  {
    if n > 0 {
      BelowOnce(n - 1, x);
    }
  }
}
