/** The work-stealing queue as a state machine: any number of workers, interleaved operation by
    operation. Whether everything is finished is decided from one counter. */
module JobQueues {

  /** Where a worker is inside `worker_loop`. `Counted` is the middle of `push`: the counter has been
      raised, the job `todo[0]` is not in the injector yet. */
  datatype Phase<J> =
    | Looking
    | Checking
    | Running(job: J, todo: seq<J>)
    | Counted(job: J, todo: seq<J>)
    | Exited
    | Crashed(job: J, todo: seq<J>)

  datatype Worker<J> = Worker(local: seq<J>, phase: Phase<J>)

  /** The queue and its workers; `pushed`, `executed` and `steals` only record what has happened. */
  datatype State<J> = State(
    injector: seq<J>,
    inFlight: int,
    workers: seq<Worker<J>>,
    pushed: multiset<J>,
    executed: seq<J>,
    steals: nat)

  datatype Event =
    | Pop(w: nat)
    | StealGlobal(w: nat, extra: nat)
    | StealPeer(w: nat, peer: nat, extra: nat)
    | Miss(w: nat)
    | Check(w: nat)
    | Count(w: nat)
    | Push(w: nat)
    | Finish(w: nat)
    | Panic(w: nat)

  predicate Enabled<J>(s: State<J>, e: Event) {
    e.w < |s.workers| &&
    var worker := s.workers[e.w];
    match e
    case Pop(_) => worker.phase.Looking? && worker.local != []
    case StealGlobal(_, extra) => worker.phase.Looking? && worker.local == [] && extra < |s.injector|
    case StealPeer(w, peer, extra) =>
      && worker.phase.Looking? && worker.local == []
      && peer < |s.workers| && peer != w && extra < |s.workers[peer].local|
    case Miss(_) => worker.phase.Looking? && worker.local == []
    case Check(_) => worker.phase.Checking?
    case Count(_) => worker.phase.Running? && worker.phase.todo != []
    case Push(_) => worker.phase.Counted? && worker.phase.todo != []
    case Finish(_) => worker.phase.Running? && worker.phase.todo == []
    case Panic(_) => worker.phase.Running?
  }

  /** Takes up `batch[0]` and keeps the rest of the batch in the local queue. */
  function TakeUp<J>(spawn: J -> seq<J>, batch: seq<J>): Worker<J>
    requires batch != []
  {
    Worker(batch[1..], Running(batch[0], spawn(batch[0])))
  }

  /** One atomic operation; a job is given by what its `run` goes on to push. */
  function Apply<J>(spawn: J -> seq<J>, s: State<J>, e: Event): State<J>
    requires Enabled(s, e)
  {
    var worker := s.workers[e.w];
    var phase := worker.phase;
    match e
    case Pop(w) =>
      s.(workers := s.workers[w := TakeUp(spawn, worker.local)], steals := s.steals + 1)
    case StealGlobal(w, extra) =>
      s.(injector := s.injector[extra + 1..],
         workers := s.workers[w := TakeUp(spawn, s.injector[..extra + 1])],
         steals := s.steals + 1)
    case StealPeer(w, peer, extra) =>
      var victim := s.workers[peer];
      var robbed := s.workers[peer := victim.(local := victim.local[extra + 1..])];
      s.(workers := robbed[w := TakeUp(spawn, victim.local[..extra + 1])], steals := s.steals + 1)
    case Miss(w) => s.(workers := s.workers[w := worker.(phase := Checking)])
    case Check(w) =>
      s.(workers := s.workers[w := worker.(phase := if s.inFlight == 0 then Exited else Looking)])
    case Count(w) =>
      s.(inFlight := s.inFlight + 1,
         workers := s.workers[w := worker.(phase := Counted(phase.job, phase.todo))])
    case Push(w) =>
      s.(injector := s.injector + [phase.todo[0]],
         workers := s.workers[w := worker.(phase := Running(phase.job, phase.todo[1..]))],
         pushed := s.pushed + multiset{phase.todo[0]})
    case Finish(w) =>
      s.(inFlight := s.inFlight - 1,
         workers := s.workers[w := worker.(phase := Looking)],
         executed := s.executed + [phase.job])
    case Panic(w) =>
      s.(inFlight := s.inFlight - 1,
         workers := s.workers[w := worker.(phase := Crashed(phase.job, phase.todo))],
         executed := s.executed + [phase.job])
  }

  /** What the pushes made before the run and the start of the workers leave behind. */
  function Start<J>(jobs: seq<J>, workers: nat): State<J> {
    State(jobs, |jobs|, seq(workers, _ => Worker([], Looking)), multiset(jobs), [], 0)
  }

  /** `events` can happen one after the other from `s`, ending in `t`. */
  ghost predicate Reaches<J>(spawn: J -> seq<J>, s: State<J>, events: seq<Event>, t: State<J>)
    decreases |events|
  {
    if events == [] then s == t
    else Enabled(s, events[0]) && Reaches(spawn, Apply(spawn, s, events[0]), events[1..], t)
  }

  // ---- the counter ----

  predicate Busy<J>(worker: Worker<J>) {
    worker.phase.Running? || worker.phase.Counted?
  }

  function HeldBy<J>(worker: Worker<J>): multiset<J> {
    multiset(worker.local) + if Busy(worker) then multiset{worker.phase.job} else multiset{}
  }

  function HeldByAll<J>(workers: seq<Worker<J>>): multiset<J> {
    if workers == [] then multiset{} else HeldBy(workers[0]) + HeldByAll(workers[1..])
  }

  /** Jobs pushed and not finished: in the injector, in a local queue, or running. */
  function Held<J>(s: State<J>): multiset<J> {
    multiset(s.injector) + HeldByAll(s.workers)
  }

  function BusyWorkers<J>(workers: seq<Worker<J>>): nat {
    if workers == [] then 0 else (if Busy(workers[0]) then 1 else 0) + BusyWorkers(workers[1..])
  }

  function CountedWorkers<J>(workers: seq<Worker<J>>): nat {
    if workers == [] then 0
    else (if workers[0].phase.Counted? then 1 else 0) + CountedWorkers(workers[1..])
  }

  lemma {:induction false} Replaced<J>(workers: seq<Worker<J>>, w: nat, now: Worker<J>)
    requires w < |workers|
    ensures HeldByAll(workers[w := now]) + HeldBy(workers[w]) == HeldByAll(workers) + HeldBy(now)
    ensures BusyWorkers(workers[w := now]) + (if Busy(workers[w]) then 1 else 0)
         == BusyWorkers(workers) + if Busy(now) then 1 else 0
    ensures CountedWorkers(workers[w := now]) + (if workers[w].phase.Counted? then 1 else 0)
         == CountedWorkers(workers) + if now.phase.Counted? then 1 else 0
    decreases |workers|
  {
    hide HeldBy, Busy;
    if w == 0 {
      assert workers[w := now][1..] == workers[1..];
    } else {
      assert workers[w := now][1..] == workers[1..][w - 1 := now];
      Replaced(workers[1..], w - 1, now);
      var first, rest, later := HeldBy(workers[0]), HeldByAll(workers[1..]), HeldByAll(workers[1..][w - 1 := now]);
      assert HeldByAll(workers) == first + rest && HeldByAll(workers[w := now]) == first + later;
      assert (first + later) + HeldBy(workers[w]) == first + (later + HeldBy(workers[w]));
      assert (first + rest) + HeldBy(now) == first + (rest + HeldBy(now));
    }
  }

  lemma Cancel<T>(a: multiset<T>, b: multiset<T>, c: multiset<T>)
    requires a + c == b + c
    ensures a == b
  {
    forall x ensures a[x] == b[x] {
      assert (a + c)[x] == (b + c)[x];
    }
  }

  /** Only the difference one worker makes matters to what all of them hold. */
  lemma HoldsSame<J>(workers: seq<Worker<J>>, w: nat, now: Worker<J>)
    requires w < |workers| && HeldBy(now) == HeldBy(workers[w])
    ensures HeldByAll(workers[w := now]) == HeldByAll(workers)
  {
    hide HeldBy, HeldByAll;
    Replaced(workers, w, now);
    Cancel(HeldByAll(workers[w := now]), HeldByAll(workers), HeldBy(now));
  }

  lemma HoldsMore<J>(workers: seq<Worker<J>>, w: nat, now: Worker<J>, gained: multiset<J>)
    requires w < |workers| && HeldBy(now) == HeldBy(workers[w]) + gained
    ensures HeldByAll(workers[w := now]) == HeldByAll(workers) + gained
  {
    hide HeldBy, HeldByAll;
    Replaced(workers, w, now);
    var all, before := HeldByAll(workers), HeldBy(workers[w]);
    assert all + (before + gained) == all + gained + before;
    Cancel(HeldByAll(workers[w := now]), all + gained, before);
  }

  lemma HoldsLess<J>(workers: seq<Worker<J>>, w: nat, now: Worker<J>, lost: multiset<J>)
    requires w < |workers| && HeldBy(now) + lost == HeldBy(workers[w])
    ensures HeldByAll(workers[w := now]) + lost == HeldByAll(workers)
  {
    hide HeldBy, HeldByAll;
    HoldsMore(workers[w := now], w, workers[w], lost);
    assert workers[w := now][w := workers[w]] == workers;
  }

  /** The books of the queue: what goes in must be held or done, and the counter and the number of
      steals follow. */
  ghost predicate Balanced<J>(s: State<J>) {
    && s.inFlight == |Held(s)| + CountedWorkers(s.workers)
    && s.pushed == Held(s) + multiset(s.executed)
    && s.steals == |s.executed| + BusyWorkers(s.workers)
  }

  /** The counter is exact at every moment, no job is lost or doubled, and nobody has left early. */
  ghost predicate Invariant<J>(s: State<J>) {
    && Balanced(s)
    && forall w: nat | w < |s.workers| :: Plausible(s.workers[w].phase, s.inFlight)
  }

  predicate Plausible<J>(phase: Phase<J>, inFlight: int) {
    (phase.Exited? ==> inFlight == 0) && (phase.Counted? ==> phase.todo != [])
  }

  lemma Split<J>(jobs: seq<J>, k: nat)
    requires k <= |jobs|
    ensures multiset(jobs) == multiset(jobs[..k]) + multiset(jobs[k..])
  {
    assert jobs == jobs[..k] + jobs[k..];
  }

  lemma HeldByTakeUp<J>(spawn: J -> seq<J>, batch: seq<J>)
    requires batch != []
    ensures HeldBy(TakeUp(spawn, batch)) == multiset(batch) && TakeUp(spawn, batch).phase.Running?
  {
    assert batch == [batch[0]] + batch[1..];
  }

  /** Taking jobs from anywhere moves them and raises both sides of the steal count. */
  lemma PopBalanced<J>(s: State<J>, w: nat, now: Worker<J>)
    requires Balanced(s) && w < |s.workers| && s.workers[w].phase.Looking?
    requires now.phase.Running? && HeldBy(now) == multiset(s.workers[w].local)
    ensures Balanced(s.(workers := s.workers[w := now], steals := s.steals + 1))
  {
    HoldsSame(s.workers, w, now);
    hide HeldByAll, BusyWorkers, CountedWorkers, HeldBy;
    Replaced(s.workers, w, now);
  }

  lemma StealGlobalBalanced<J>(s: State<J>, w: nat, now: Worker<J>, k: nat)
    requires Balanced(s) && w < |s.workers| && s.workers[w].phase.Looking? && s.workers[w].local == []
    requires k <= |s.injector| && now.phase.Running? && HeldBy(now) == multiset(s.injector[..k])
    ensures Balanced(s.(injector := s.injector[k..], workers := s.workers[w := now], steals := s.steals + 1))
  {
    var batch, left := multiset(s.injector[..k]), multiset(s.injector[k..]);
    HoldsMore(s.workers, w, now, batch);
    hide HeldByAll, BusyWorkers, CountedWorkers, HeldBy;
    Replaced(s.workers, w, now);
    Split(s.injector, k);
    assert left + (HeldByAll(s.workers) + batch) == Held(s);
  }

  /** One worker loses a batch, another takes it up. */
  lemma StolenFromPeer<J>(workers: seq<Worker<J>>, w: nat, peer: nat, left: Worker<J>, now: Worker<J>, batch: multiset<J>)
    requires w < |workers| && peer < |workers| && w != peer
    requires HeldBy(left) + batch == HeldBy(workers[peer]) && HeldBy(now) == HeldBy(workers[w]) + batch
    requires left.phase == workers[peer].phase && now.phase.Running? && workers[w].phase.Looking?
    ensures HeldByAll(workers[peer := left][w := now]) == HeldByAll(workers)
    ensures BusyWorkers(workers[peer := left][w := now]) == BusyWorkers(workers) + 1
    ensures CountedWorkers(workers[peer := left][w := now]) == CountedWorkers(workers)
  {
    hide HeldBy, HeldByAll, BusyWorkers, CountedWorkers;
    HoldsLess(workers, peer, left, batch);
    HoldsMore(workers[peer := left], w, now, batch);
    Replaced(workers, peer, left);
    Replaced(workers[peer := left], w, now);
  }

  lemma StealPeerBalanced<J>(s: State<J>, w: nat, peer: nat, now: Worker<J>, k: nat)
    requires Balanced(s) && w < |s.workers| && s.workers[w].phase.Looking? && s.workers[w].local == []
    requires peer < |s.workers| && peer != w && k <= |s.workers[peer].local|
    requires now.phase.Running? && HeldBy(now) == multiset(s.workers[peer].local[..k])
    ensures var left := s.workers[peer].(local := s.workers[peer].local[k..]);
      Balanced(s.(workers := s.workers[peer := left][w := now], steals := s.steals + 1))
  {
    var victim := s.workers[peer];
    var left := victim.(local := victim.local[k..]);
    Parted(victim, k);
    assert HeldBy(s.workers[w]) == multiset{} && multiset{} + HeldBy(now) == HeldBy(now);
    hide HeldByAll, BusyWorkers, CountedWorkers, HeldBy, Balanced;
    StolenFromPeer(s.workers, w, peer, left, now, HeldBy(now));
    TakenBalanced(s, s.(workers := s.workers[peer := left][w := now], steals := s.steals + 1));
  }

  /** One more worker is busy with what was held already. */
  lemma TakenBalanced<J>(s: State<J>, t: State<J>)
    requires Balanced(s) && t == s.(workers := t.workers, steals := s.steals + 1)
    requires HeldByAll(t.workers) == HeldByAll(s.workers)
    requires BusyWorkers(t.workers) == BusyWorkers(s.workers) + 1
    requires CountedWorkers(t.workers) == CountedWorkers(s.workers)
    ensures Balanced(t)
  {
    hide HeldByAll, BusyWorkers, CountedWorkers;
    SameHeld(s, t);
    hide Held;
  }

  lemma Parted<J>(worker: Worker<J>, k: nat)
    requires k <= |worker.local|
    ensures HeldBy(worker.(local := worker.local[k..])) + multiset(worker.local[..k]) == HeldBy(worker)
  {
    Split(worker.local, k);
  }

  lemma SameHeld<J>(s: State<J>, t: State<J>)
    requires t.injector == s.injector && HeldByAll(t.workers) == HeldByAll(s.workers)
    ensures Held(t) == Held(s)
  {
  }

  /** A worker moves on without taking or finishing anything. */
  lemma MovedOn<J>(workers: seq<Worker<J>>, w: nat, now: Worker<J>)
    requires w < |workers| && HeldBy(now) == HeldBy(workers[w]) && Busy(now) == Busy(workers[w])
    ensures HeldByAll(workers[w := now]) == HeldByAll(workers)
    ensures BusyWorkers(workers[w := now]) == BusyWorkers(workers)
    ensures CountedWorkers(workers[w := now]) + (if workers[w].phase.Counted? then 1 else 0)
         == CountedWorkers(workers) + if now.phase.Counted? then 1 else 0
  {
    hide HeldByAll, BusyWorkers, CountedWorkers, HeldBy;
    HoldsSame(workers, w, now);
    Replaced(workers, w, now);
  }

  lemma WaitBalanced<J>(s: State<J>, w: nat, phase: Phase<J>)
    requires Balanced(s) && w < |s.workers| && !Busy(s.workers[w])
    requires phase.Looking? || phase.Checking? || phase.Exited?
    ensures Balanced(s.(workers := s.workers[w := s.workers[w].(phase := phase)]))
  {
    MovedOn(s.workers, w, s.workers[w].(phase := phase));
    hide HeldByAll, BusyWorkers, CountedWorkers;
  }

  lemma CountBalanced<J>(s: State<J>, w: nat, now: Worker<J>)
    requires Balanced(s) && w < |s.workers| && s.workers[w].phase.Running?
    requires now.phase.Counted? && HeldBy(now) == HeldBy(s.workers[w])
    ensures Balanced(s.(inFlight := s.inFlight + 1, workers := s.workers[w := now]))
  {
    MovedOn(s.workers, w, now);
    hide HeldByAll, BusyWorkers, CountedWorkers, HeldBy;
  }

  lemma PushBalanced<J>(s: State<J>, w: nat, now: Worker<J>, job: J)
    requires Balanced(s) && w < |s.workers| && s.workers[w].phase.Counted?
    requires now.phase.Running? && HeldBy(now) == HeldBy(s.workers[w])
    ensures Balanced(s.(injector := s.injector + [job], workers := s.workers[w := now],
                        pushed := s.pushed + multiset{job}))
  {
    MovedOn(s.workers, w, now);
    hide HeldByAll, BusyWorkers, CountedWorkers, HeldBy;
    var t := s.(injector := s.injector + [job], workers := s.workers[w := now], pushed := s.pushed + multiset{job});
    HeldMore(s, t, job);
    hide Held;
    assert t.pushed == Held(t) + multiset(t.executed);
  }

  lemma HeldMore<J>(s: State<J>, t: State<J>, job: J)
    requires t.injector == s.injector + [job] && HeldByAll(t.workers) == HeldByAll(s.workers)
    ensures Held(t) == Held(s) + multiset{job} && |Held(t)| == |Held(s)| + 1
  {
    hide HeldByAll;
    var held := HeldByAll(s.workers);
    assert multiset(t.injector) == multiset(s.injector) + multiset{job};
    assert (multiset(s.injector) + multiset{job}) + held == (multiset(s.injector) + held) + multiset{job};
  }

  lemma FinishBalanced<J>(s: State<J>, w: nat, now: Worker<J>, job: J)
    requires Balanced(s) && w < |s.workers| && s.workers[w].phase.Running?
    requires !Busy(now) && HeldBy(now) + multiset{job} == HeldBy(s.workers[w])
    ensures Balanced(s.(inFlight := s.inFlight - 1, workers := s.workers[w := now], executed := s.executed + [job]))
  {
    HoldsLess(s.workers, w, now, multiset{job});
    Replaced(s.workers, w, now);
    hide HeldByAll, BusyWorkers, CountedWorkers, HeldBy;
    var t := s.(inFlight := s.inFlight - 1, workers := s.workers[w := now], executed := s.executed + [job]);
    HeldLess(s, t, job);
    hide Held;
  }

  lemma HeldLess<J>(s: State<J>, t: State<J>, job: J)
    requires t.injector == s.injector && HeldByAll(t.workers) + multiset{job} == HeldByAll(s.workers)
    requires t.executed == s.executed + [job]
    ensures |Held(s)| == |Held(t)| + 1
    ensures Held(t) + multiset(t.executed) == Held(s) + multiset(s.executed)
  {
    hide HeldByAll;
    var queue, held := multiset(s.injector), HeldByAll(t.workers);
    assert queue + (held + multiset{job}) == (queue + held) + multiset{job};
    assert multiset(t.executed) == multiset(s.executed) + multiset{job};
  }

  lemma TakingBalanced<J>(spawn: J -> seq<J>, s: State<J>, e: Event)
    requires Balanced(s) && Enabled(s, e) && (e.Pop? || e.StealGlobal? || e.StealPeer?)
    ensures Balanced(Apply(spawn, s, e))
  {
    hide Balanced, HeldBy, TakeUp;
    match e
    case Pop(w) =>
      HeldByTakeUp(spawn, s.workers[w].local);
      PopBalanced(s, w, TakeUp(spawn, s.workers[w].local));
    case StealGlobal(w, extra) =>
      HeldByTakeUp(spawn, s.injector[..extra + 1]);
      StealGlobalBalanced(s, w, TakeUp(spawn, s.injector[..extra + 1]), extra + 1);
    case StealPeer(w, peer, extra) =>
      HeldByTakeUp(spawn, s.workers[peer].local[..extra + 1]);
      StealPeerBalanced(s, w, peer, TakeUp(spawn, s.workers[peer].local[..extra + 1]), extra + 1);
  }

  lemma StepBalanced<J>(spawn: J -> seq<J>, s: State<J>, e: Event)
    requires Balanced(s) && Enabled(s, e)
    ensures Balanced(Apply(spawn, s, e))
  {
    hide Balanced;
    var worker := s.workers[e.w];
    match e
    case Miss(w) => WaitBalanced(s, w, Checking);
    case Check(w) => WaitBalanced(s, w, if s.inFlight == 0 then Exited else Looking);
    case Count(w) => CountBalanced(s, w, worker.(phase := Counted(worker.phase.job, worker.phase.todo)));
    case Push(w) =>
      var left := worker.phase.todo[1..];
      PushBalanced(s, w, worker.(phase := Running(worker.phase.job, left)), worker.phase.todo[0]);
    case Finish(w) => FinishBalanced(s, w, worker.(phase := Looking), worker.phase.job);
    case Panic(w) =>
      FinishBalanced(s, w, worker.(phase := Crashed(worker.phase.job, worker.phase.todo)), worker.phase.job);
    case _ => TakingBalanced(spawn, s, e);
  }

  // ---- leaving ----

  lemma {:induction false} WorkerHolds<J>(workers: seq<Worker<J>>, w: nat)
    requires w < |workers|
    ensures HeldBy(workers[w]) <= HeldByAll(workers)
    decreases |workers|
  {
    hide HeldBy;
    if w > 0 { WorkerHolds(workers[1..], w - 1); }
  }

  /** No job is anywhere: none waits in a queue, none runs. */
  ghost predicate Quiet<J>(s: State<J>) {
    s.injector == [] && forall w | 0 <= w < |s.workers| :: s.workers[w].local == [] && !Busy(s.workers[w])
  }

  lemma HoldsNothing<J>(worker: Worker<J>)
    requires HeldBy(worker) == multiset{}
    ensures worker.local == [] && !Busy(worker)
  {
    assert |HeldBy(worker)| == |worker.local| + if Busy(worker) then 1 else 0;
  }

  lemma CounterZeroMeansQuiet<J>(s: State<J>)
    requires Balanced(s) && s.inFlight == 0
    ensures Quiet(s) && Held(s) == multiset{}
  {
    hide HeldByAll, HeldBy;
    assert |multiset(s.injector)| == 0;
    assert HeldByAll(s.workers) == multiset{};
    forall w | 0 <= w < |s.workers| ensures s.workers[w].local == [] && !Busy(s.workers[w]) {
      WorkerHolds(s.workers, w);
      HoldsNothing(s.workers[w]);
    }
  }

  /** No step raises the counter from zero, and only a counter at zero lets a worker leave. */
  lemma StepPlausible<J>(spawn: J -> seq<J>, s: State<J>, e: Event, w: nat)
    requires Enabled(s, e) && w < |s.workers| && (s.inFlight == 0 ==> !Busy(s.workers[e.w]))
    requires Plausible(s.workers[w].phase, s.inFlight)
    ensures |Apply(spawn, s, e).workers| == |s.workers|
    ensures Plausible(Apply(spawn, s, e).workers[w].phase, Apply(spawn, s, e).inFlight)
  {
  }

  lemma StepInvariant<J>(spawn: J -> seq<J>, s: State<J>, e: Event)
    requires Invariant(s) && Enabled(s, e)
    ensures Invariant(Apply(spawn, s, e))
  {
    var t := Apply(spawn, s, e);
    StepBalanced(spawn, s, e);
    hide Balanced, Apply, Plausible;
    if s.inFlight == 0 { CounterZeroMeansQuiet(s); }
    StepPlausible(spawn, s, e, e.w);
    hide Enabled;
    forall w: nat | w < |s.workers| ensures Plausible(t.workers[w].phase, t.inFlight) {
      StepPlausible(spawn, s, e, w);
    }
  }

  lemma StartInvariant<J>(jobs: seq<J>, workers: nat)
    ensures Invariant(Start(jobs, workers))
  {
    AllIdle(Start(jobs, workers).workers);
  }

  lemma {:induction false} AllIdle<J>(workers: seq<Worker<J>>)
    requires forall w | 0 <= w < |workers| :: workers[w].local == [] && !Busy(workers[w])
    ensures HeldByAll(workers) == multiset{} && BusyWorkers(workers) == 0 && CountedWorkers(workers) == 0
    decreases |workers|
  {
    if workers != [] { AllIdle(workers[1..]); }
  }

  lemma {:induction false} RunInvariant<J>(spawn: J -> seq<J>, s: State<J>, events: seq<Event>, t: State<J>)
    requires Invariant(s) && Reaches(spawn, s, events, t)
    ensures Invariant(t)
    decreases |events|
  {
    hide Invariant;
    if events != [] {
      StepInvariant(spawn, s, events[0]);
      RunInvariant(spawn, Apply(spawn, s, events[0]), events[1..], t);
    }
  }

  /** Under every interleaving: the counter is exact, and once a worker has left there is no job anywhere,
      every job pushed has been run exactly once, and there have been as many successful steals as jobs. */
  lemma ExitMeansDone<J>(spawn: J -> seq<J>, jobs: seq<J>, workers: nat, events: seq<Event>, s: State<J>)
    requires Reaches(spawn, Start(jobs, workers), events, s)
    ensures s.inFlight == |Held(s)| + CountedWorkers(s.workers)
    ensures forall w | 0 <= w < |s.workers| && s.workers[w].phase.Exited? ::
      Quiet(s) && multiset(s.executed) == s.pushed && s.steals == |s.executed|
  {
    StartInvariant(jobs, workers);
    RunInvariant(spawn, Start(jobs, workers), events, s);
    if s.inFlight == 0 {
      CounterZeroMeansQuiet(s);
      AllIdle(s.workers);
    }
  }

  // ---- nobody waits for ever ----

  predicate Productive(e: Event) {
    !e.Miss? && !e.Check? && !e.Panic?
  }

  /** As long as a job is outstanding and a worker has not crashed, some worker can get on with a job,
      at once or after it has looked at the counter; queues of crashed workers stay open to the others. */
  lemma NoDeadlock<J>(spawn: J -> seq<J>, s: State<J>, w: nat) returns (e: Event)
    requires Invariant(s) && s.inFlight > 0 && w < |s.workers| && !s.workers[w].phase.Crashed?
    ensures Enabled(s, e)
    ensures Productive(e) || (e == Check(w) && exists f :: Productive(f) && Enabled(Apply(spawn, s, e), f))
  {
    if v: nat :| v < |s.workers| && Busy(s.workers[v]) {
      if s.workers[v].phase.Counted? { e := Push(v); }
      else if s.workers[v].phase.todo == [] { e := Finish(v); }
      else { e := Count(v); }
    } else {
      var f := CanTake(s, w);
      if s.workers[w].phase.Looking? {
        e := f;
      } else {
        e := Check(w);
        assert Enabled(Apply(spawn, s, e), f);
      }
    }
  }

  /** A worker with nothing of its own finds a queued job in the injector or at a peer. */
  lemma CanTake<J>(s: State<J>, w: nat) returns (e: Event)
    requires Balanced(s) && s.inFlight > 0 && w < |s.workers|
    requires forall v | 0 <= v < |s.workers| :: !Busy(s.workers[v])
    ensures Productive(e) && Enabled(s.(workers := s.workers[w := s.workers[w].(phase := Looking)]), e)
  {
    if s.workers[w].local != [] {
      e := Pop(w);
    } else if s.injector != [] {
      e := StealGlobal(w, 0);
    } else {
      if forall v | 0 <= v < |s.workers| :: s.workers[v].local == [] { AllIdle(s.workers); }
      var v :| 0 <= v < |s.workers| && s.workers[v].local != [];
      e := StealPeer(w, v, 0);
    }
  }
}
