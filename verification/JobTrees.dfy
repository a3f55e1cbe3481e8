/** What a run of self-spawning jobs adds up to, and when it can end at all. */
module JobTrees {
  import opened JobQueues

  /** The tree of jobs below `job` is finite, with at most `n` levels. */
  predicate Grounded<J>(spawn: J -> seq<J>, job: J, n: nat)
    decreases n
  {
    n > 0 && forall i | 0 <= i < |spawn(job)| :: Grounded(spawn, spawn(job)[i], n - 1)
  }

  predicate AllGrounded<J>(spawn: J -> seq<J>, jobs: seq<J>, n: nat) {
    forall i | 0 <= i < |jobs| :: Grounded(spawn, jobs[i], n)
  }

  /** A sequential walk: what `job` and, one after the other, all jobs below it put out. */
  function Walk<J, O>(spawn: J -> seq<J>, out: J -> multiset<O>, job: J, n: nat): multiset<O>
    decreases n, 0
  {
    if n == 0 then multiset{} else out(job) + WalkAll(spawn, out, spawn(job), n - 1)
  }

  function WalkAll<J, O>(spawn: J -> seq<J>, out: J -> multiset<O>, jobs: seq<J>, n: nat): multiset<O>
    decreases n, |jobs|
  {
    if jobs == [] then multiset{} else Walk(spawn, out, jobs[0], n) + WalkAll(spawn, out, jobs[1..], n)
  }

  lemma {:induction false} WalkDeeper<J, O>(spawn: J -> seq<J>, out: J -> multiset<O>, job: J, n: nat)
    requires Grounded(spawn, job, n)
    ensures Grounded(spawn, job, n + 1) && Walk(spawn, out, job, n + 1) == Walk(spawn, out, job, n)
    decreases n, 0
  {
    WalkAllDeeper(spawn, out, spawn(job), n - 1);
  }

  lemma {:induction false} WalkAllDeeper<J, O>(spawn: J -> seq<J>, out: J -> multiset<O>, jobs: seq<J>, n: nat)
    requires AllGrounded(spawn, jobs, n)
    ensures AllGrounded(spawn, jobs, n + 1) && WalkAll(spawn, out, jobs, n + 1) == WalkAll(spawn, out, jobs, n)
    decreases n, |jobs|
  {
    if jobs != [] {
      WalkDeeper(spawn, out, jobs[0], n);
      WalkAllDeeper(spawn, out, jobs[1..], n);
      hide Grounded;
      assert jobs == [jobs[0]] + jobs[1..];
    }
  }

  /** The walk below a job with a finite tree, at one fixed depth bound. */
  lemma Unfold<J, O>(spawn: J -> seq<J>, out: J -> multiset<O>, job: J, n: nat)
    requires Grounded(spawn, job, n)
    ensures AllGrounded(spawn, spawn(job), n)
    ensures Walk(spawn, out, job, n) == out(job) + WalkAll(spawn, out, spawn(job), n)
  {
    WalkAllDeeper(spawn, out, spawn(job), n - 1);
  }

  lemma {:induction false} WalkAppend<J, O>(spawn: J -> seq<J>, out: J -> multiset<O>, a: seq<J>, b: seq<J>, n: nat)
    ensures WalkAll(spawn, out, a + b, n) == WalkAll(spawn, out, a, n) + WalkAll(spawn, out, b, n)
    decreases |a|
  {
    hide Walk;
    if a == [] {
      assert a + b == b;
    } else {
      assert (a + b)[1..] == a[1..] + b;
      WalkAppend(spawn, out, a[1..], b, n);
    }
  }

  lemma WalkSplit<J, O>(spawn: J -> seq<J>, out: J -> multiset<O>, jobs: seq<J>, k: nat, n: nat)
    requires k <= |jobs|
    ensures WalkAll(spawn, out, jobs, n) == WalkAll(spawn, out, jobs[..k], n) + WalkAll(spawn, out, jobs[k..], n)
  {
    assert jobs == jobs[..k] + jobs[k..];
    WalkAppend(spawn, out, jobs[..k], jobs[k..], n);
  }

  lemma WalkOne<J, O>(spawn: J -> seq<J>, out: J -> multiset<O>, job: J, n: nat)
    ensures WalkAll(spawn, out, [job], n) == Walk(spawn, out, job, n)
  {
    hide Walk;
    assert [job][1..] == [];
  }

  // ---- conservation over a run ----

  function Done<J, O>(out: J -> multiset<O>, executed: seq<J>): multiset<O> {
    if executed == [] then multiset{}
    else Done(out, executed[..|executed| - 1]) + out(executed[|executed| - 1])
  }

  lemma DoneMore<J, O>(out: J -> multiset<O>, executed: seq<J>, job: J)
    ensures Done(out, executed + [job]) == Done(out, executed) + out(job)
  {
    assert (executed + [job])[..|executed|] == executed;
  }

  /** What a worker's jobs will still put out; a crashed job takes what it had not pushed yet with it. */
  function Owes<J, O>(spawn: J -> seq<J>, out: J -> multiset<O>, worker: Worker<J>, n: nat): multiset<O> {
    WalkAll(spawn, out, worker.local, n) + PhaseOwes(spawn, out, worker.phase, n)
  }

  function PhaseOwes<J, O>(spawn: J -> seq<J>, out: J -> multiset<O>, phase: Phase<J>, n: nat): multiset<O> {
    match phase
    case Running(job, todo) => out(job) + WalkAll(spawn, out, todo, n)
    case Counted(job, todo) => out(job) + WalkAll(spawn, out, todo, n)
    case Crashed(_, todo) => WalkAll(spawn, out, todo, n)
    case _ => multiset{}
  }

  function OwesAll<J, O>(spawn: J -> seq<J>, out: J -> multiset<O>, workers: seq<Worker<J>>, n: nat): multiset<O> {
    if workers == [] then multiset{}
    else Owes(spawn, out, workers[0], n) + OwesAll(spawn, out, workers[1..], n)
  }

  /** Everything put out so far and everything still to come. */
  function Adds<J, O>(spawn: J -> seq<J>, out: J -> multiset<O>, s: State<J>, n: nat): multiset<O> {
    Done(out, s.executed) + WalkAll(spawn, out, s.injector, n) + OwesAll(spawn, out, s.workers, n)
  }

  predicate WorkerGrounded<J>(spawn: J -> seq<J>, worker: Worker<J>, n: nat) {
    && AllGrounded(spawn, worker.local, n)
    && (Busy(worker) || worker.phase.Crashed? ==> AllGrounded(spawn, worker.phase.todo, n))
  }

  predicate StateGrounded<J>(spawn: J -> seq<J>, s: State<J>, n: nat) {
    && AllGrounded(spawn, s.injector, n)
    && forall w: nat | w < |s.workers| :: WorkerGrounded(spawn, s.workers[w], n)
  }

  /** What one worker and the rest of the state exchange leaves the total alone. */
  lemma {:induction false} Exchange<J, O>(spawn: J -> seq<J>, out: J -> multiset<O>, workers: seq<Worker<J>>, w: nat,
                                          now: Worker<J>, n: nat, before: multiset<O>, after: multiset<O>)
    requires w < |workers| && after + Owes(spawn, out, now, n) == before + Owes(spawn, out, workers[w], n)
    ensures after + OwesAll(spawn, out, workers[w := now], n) == before + OwesAll(spawn, out, workers, n)
    decreases |workers|
  {
    hide Owes;
    if w == 0 {
      assert workers[w := now][1..] == workers[1..];
      var rest := OwesAll(spawn, out, workers[1..], n);
      assert after + (Owes(spawn, out, now, n) + rest) == after + Owes(spawn, out, now, n) + rest;
      assert before + (Owes(spawn, out, workers[0], n) + rest) == before + Owes(spawn, out, workers[0], n) + rest;
    } else {
      assert workers[w := now][1..] == workers[1..][w - 1 := now];
      Exchange(spawn, out, workers[1..], w - 1, now, n, before, after);
      var first := Owes(spawn, out, workers[0], n);
      var was, will := OwesAll(spawn, out, workers[1..], n), OwesAll(spawn, out, workers[1..][w - 1 := now], n);
      assert after + (first + will) == after + will + first;
      assert before + (first + was) == before + was + first;
    }
  }

  lemma ExchangeNothing<J, O>(spawn: J -> seq<J>, out: J -> multiset<O>, workers: seq<Worker<J>>, w: nat,
                              now: Worker<J>, n: nat)
    requires w < |workers| && Owes(spawn, out, now, n) == Owes(spawn, out, workers[w], n)
    ensures OwesAll(spawn, out, workers[w := now], n) == OwesAll(spawn, out, workers, n)
  {
    hide Owes, OwesAll;
    Exchange(spawn, out, workers, w, now, n, multiset{}, multiset{});
    forall bag: multiset<O> ensures multiset{} + bag == bag { }
  }

  lemma GiveAway<J, O>(spawn: J -> seq<J>, out: J -> multiset<O>, workers: seq<Worker<J>>, w: nat,
                       now: Worker<J>, n: nat, given: multiset<O>)
    requires w < |workers| && given + Owes(spawn, out, now, n) == Owes(spawn, out, workers[w], n)
    ensures given + OwesAll(spawn, out, workers[w := now], n) == OwesAll(spawn, out, workers, n)
  {
    hide Owes, OwesAll;
    assert multiset{} + Owes(spawn, out, workers[w], n) == Owes(spawn, out, workers[w], n);
    Exchange(spawn, out, workers, w, now, n, multiset{}, given);
    assert multiset{} + OwesAll(spawn, out, workers, n) == OwesAll(spawn, out, workers, n);
  }

  lemma TakenUp<J, O>(spawn: J -> seq<J>, out: J -> multiset<O>, batch: seq<J>, n: nat)
    requires batch != [] && AllGrounded(spawn, batch, n)
    ensures Owes(spawn, out, TakeUp(spawn, batch), n) == WalkAll(spawn, out, batch, n)
    ensures WorkerGrounded(spawn, TakeUp(spawn, batch), n)
  {
    Unfold(spawn, out, batch[0], n);
    hide Grounded, Walk;
  }

  lemma PopAdds<J, O>(spawn: J -> seq<J>, out: J -> multiset<O>, s: State<J>, w: nat, n: nat)
    requires w < |s.workers| && s.workers[w].phase.Looking? && s.workers[w].local != []
    requires AllGrounded(spawn, s.workers[w].local, n)
    ensures OwesAll(spawn, out, s.workers[w := TakeUp(spawn, s.workers[w].local)], n) == OwesAll(spawn, out, s.workers, n)
  {
    TakenUp(spawn, out, s.workers[w].local, n);
    assert Owes(spawn, out, s.workers[w], n) == WalkAll(spawn, out, s.workers[w].local, n);
    hide Owes, OwesAll, TakeUp, WalkAll;
    ExchangeNothing(spawn, out, s.workers, w, TakeUp(spawn, s.workers[w].local), n);
  }

  lemma StealGlobalAdds<J, O>(spawn: J -> seq<J>, out: J -> multiset<O>, s: State<J>, w: nat, k: nat, n: nat)
    requires w < |s.workers| && s.workers[w].phase.Looking? && s.workers[w].local == []
    requires 0 < k <= |s.injector| && AllGrounded(spawn, s.injector[..k], n)
    ensures WalkAll(spawn, out, s.injector[k..], n) + OwesAll(spawn, out, s.workers[w := TakeUp(spawn, s.injector[..k])], n)
         == WalkAll(spawn, out, s.injector, n) + OwesAll(spawn, out, s.workers, n)
  {
    TakenUp(spawn, out, s.injector[..k], n);
    WalkSplit(spawn, out, s.injector, k, n);
    assert Owes(spawn, out, s.workers[w], n) == multiset{};
    hide Owes, OwesAll, TakeUp, WalkAll;
    Exchange(spawn, out, s.workers, w, TakeUp(spawn, s.injector[..k]), n,
             WalkAll(spawn, out, s.injector, n), WalkAll(spawn, out, s.injector[k..], n));
  }

  lemma Robbed<J, O>(spawn: J -> seq<J>, out: J -> multiset<O>, workers: seq<Worker<J>>, w: nat, peer: nat,
                     left: Worker<J>, now: Worker<J>, n: nat, bag: multiset<O>)
    requires w < |workers| && peer < |workers| && w != peer
    requires bag + OwesAll(spawn, out, workers[peer := left], n) == OwesAll(spawn, out, workers, n)
    requires Owes(spawn, out, workers[w], n) == multiset{} && Owes(spawn, out, now, n) == bag
    ensures OwesAll(spawn, out, workers[peer := left][w := now], n) == OwesAll(spawn, out, workers, n)
  {
    hide Owes, OwesAll;
    assert workers[peer := left][w := now][w := workers[w]] == workers[peer := left];
    GiveAway(spawn, out, workers[peer := left][w := now], w, workers[w], n, bag);
  }

  lemma StealPeerAdds<J, O>(spawn: J -> seq<J>, out: J -> multiset<O>, s: State<J>, w: nat, peer: nat, k: nat, n: nat)
    requires w < |s.workers| && s.workers[w].phase.Looking? && s.workers[w].local == [] && peer < |s.workers| && peer != w
    requires 0 < k <= |s.workers[peer].local| && AllGrounded(spawn, s.workers[peer].local[..k], n)
    ensures var left := s.workers[peer].(local := s.workers[peer].local[k..]);
      OwesAll(spawn, out, s.workers[peer := left][w := TakeUp(spawn, s.workers[peer].local[..k])], n)
      == OwesAll(spawn, out, s.workers, n)
  {
    var victim := s.workers[peer];
    var left, batch := victim.(local := victim.local[k..]), victim.local[..k];
    TakenUp(spawn, out, batch, n);
    WalkSplit(spawn, out, victim.local, k, n);
    var bag := WalkAll(spawn, out, batch, n);
    assert Owes(spawn, out, s.workers[w], n) == multiset{};
    assert bag + Owes(spawn, out, left, n) == Owes(spawn, out, victim, n);
    hide Owes, OwesAll, TakeUp, WalkAll;
    GiveAway(spawn, out, s.workers, peer, left, n, bag);
    Robbed(spawn, out, s.workers, w, peer, left, TakeUp(spawn, batch), n, bag);
  }

  lemma PushAdds<J, O>(spawn: J -> seq<J>, out: J -> multiset<O>, s: State<J>, w: nat, n: nat)
    requires w < |s.workers| && s.workers[w].phase.Counted? && s.workers[w].phase.todo != []
    ensures var phase := s.workers[w].phase;
      WalkAll(spawn, out, s.injector + [phase.todo[0]], n)
      + OwesAll(spawn, out, s.workers[w := s.workers[w].(phase := Running(phase.job, phase.todo[1..]))], n)
      == WalkAll(spawn, out, s.injector, n) + OwesAll(spawn, out, s.workers, n)
  {
    var worker := s.workers[w];
    var job, todo := worker.phase.todo[0], worker.phase.todo;
    var now := worker.(phase := Running(worker.phase.job, todo[1..]));
    WalkOne(spawn, out, job, n);
    WalkAppend(spawn, out, s.injector, [job], n);
    var one := Walk(spawn, out, job, n);
    hide Walk;
    assert one + Owes(spawn, out, now, n) == Owes(spawn, out, worker, n) by { PushedOne(spawn, out, worker, n); }
    hide Owes, OwesAll, WalkAll;
    GiveAway(spawn, out, s.workers, w, now, n, one);
    var queue, owed := WalkAll(spawn, out, s.injector, n), OwesAll(spawn, out, s.workers[w := now], n);
    assert (queue + one) + owed == queue + (one + owed);
  }

  lemma PushedOne<J, O>(spawn: J -> seq<J>, out: J -> multiset<O>, worker: Worker<J>, n: nat)
    requires worker.phase.Counted? && worker.phase.todo != []
    ensures var now := worker.(phase := Running(worker.phase.job, worker.phase.todo[1..]));
      Walk(spawn, out, worker.phase.todo[0], n) + Owes(spawn, out, now, n) == Owes(spawn, out, worker, n)
  {
    hide Walk;
    var one, rest := Walk(spawn, out, worker.phase.todo[0], n), WalkAll(spawn, out, worker.phase.todo[1..], n);
    assert WalkAll(spawn, out, worker.phase.todo, n) == one + rest;
    hide WalkAll;
  }

  /** Finishing or crashing puts out the job's own part; a crash keeps the unpushed rest on the books. */
  lemma FinishAdds<J, O>(spawn: J -> seq<J>, out: J -> multiset<O>, s: State<J>, w: nat, phase: Phase<J>, n: nat)
    requires w < |s.workers| && s.workers[w].phase.Running?
    requires phase == Crashed(s.workers[w].phase.job, s.workers[w].phase.todo)
          || (phase.Looking? && s.workers[w].phase.todo == [])
    ensures Done(out, s.executed + [s.workers[w].phase.job])
            + OwesAll(spawn, out, s.workers[w := s.workers[w].(phase := phase)], n)
         == Done(out, s.executed) + OwesAll(spawn, out, s.workers, n)
  {
    var worker := s.workers[w];
    var job, now := worker.phase.job, worker.(phase := phase);
    DoneMore(out, s.executed, job);
    assert out(job) + Owes(spawn, out, now, n) == Owes(spawn, out, worker, n);
    hide Owes, OwesAll, WalkAll, Done;
    GiveAway(spawn, out, s.workers, w, now, n, out(job));
    var done, owed := Done(out, s.executed), OwesAll(spawn, out, s.workers[w := now], n);
    assert (done + out(job)) + owed == done + (out(job) + owed);
  }

  lemma SamePhaseAdds<J, O>(spawn: J -> seq<J>, out: J -> multiset<O>, s: State<J>, w: nat, phase: Phase<J>, n: nat)
    requires w < |s.workers| && PhaseOwes(spawn, out, phase, n) == PhaseOwes(spawn, out, s.workers[w].phase, n)
    ensures OwesAll(spawn, out, s.workers[w := s.workers[w].(phase := phase)], n) == OwesAll(spawn, out, s.workers, n)
  {
    hide OwesAll, WalkAll, PhaseOwes;
    ExchangeNothing(spawn, out, s.workers, w, s.workers[w].(phase := phase), n);
  }

  lemma TakingAdds<J, O>(spawn: J -> seq<J>, out: J -> multiset<O>, s: State<J>, e: Event, n: nat)
    requires StateGrounded(spawn, s, n) && Enabled(s, e) && (e.Pop? || e.StealGlobal? || e.StealPeer?)
    ensures Adds(spawn, out, Apply(spawn, s, e), n) == Adds(spawn, out, s, n)
  {
    hide OwesAll, WalkAll, Done, Grounded, TakeUp;
    match e
    case Pop(w) => PopAdds(spawn, out, s, w, n);
    case StealGlobal(w, extra) =>
      StealGlobalAdds(spawn, out, s, w, extra + 1, n);
      var t := Apply(spawn, s, e);
      Regroup(Done(out, s.executed), WalkAll(spawn, out, s.injector, n), OwesAll(spawn, out, s.workers, n),
              Done(out, s.executed), WalkAll(spawn, out, t.injector, n), OwesAll(spawn, out, t.workers, n));
    case StealPeer(w, peer, extra) => StealPeerAdds(spawn, out, s, w, peer, extra + 1, n);
  }

  lemma Regroup<O>(a: multiset<O>, b: multiset<O>, c: multiset<O>, d: multiset<O>, e: multiset<O>, f: multiset<O>)
    ensures a == d && b + c == e + f ==> a + b + c == d + e + f
    ensures b == e && a + c == d + f ==> a + b + c == d + e + f
  {
    assert a + b + c == a + (b + c) == b + (a + c);
    assert d + e + f == d + (e + f) == e + (d + f);
  }

  lemma PhaseStepAdds<J, O>(spawn: J -> seq<J>, out: J -> multiset<O>, s: State<J>, e: Event, n: nat)
    requires Enabled(s, e) && (e.Miss? || e.Check? || e.Count?)
    ensures Adds(spawn, out, Apply(spawn, s, e), n) == Adds(spawn, out, s, n)
  {
    hide OwesAll, WalkAll, Done;
    match e
    case Miss(w) => SamePhaseAdds(spawn, out, s, w, Checking, n);
    case Check(w) => SamePhaseAdds(spawn, out, s, w, if s.inFlight == 0 then Exited else Looking, n);
    case Count(w) =>
      SamePhaseAdds(spawn, out, s, w, Counted(s.workers[w].phase.job, s.workers[w].phase.todo), n);
  }

  lemma PushStepAdds<J, O>(spawn: J -> seq<J>, out: J -> multiset<O>, s: State<J>, w: nat, n: nat)
    requires Enabled(s, Push(w)) && StateGrounded(spawn, s, n)
    ensures Adds(spawn, out, Apply(spawn, s, Push(w)), n) == Adds(spawn, out, s, n)
  {
    PushAdds(spawn, out, s, w, n);
    hide OwesAll, WalkAll, Done, StateGrounded;
    var t := Apply(spawn, s, Push(w));
    Regroup(Done(out, s.executed), WalkAll(spawn, out, s.injector, n), OwesAll(spawn, out, s.workers, n),
            Done(out, s.executed), WalkAll(spawn, out, t.injector, n), OwesAll(spawn, out, t.workers, n));
  }

  lemma EndStepAdds<J, O>(spawn: J -> seq<J>, out: J -> multiset<O>, s: State<J>, e: Event, n: nat)
    requires Enabled(s, e) && (e.Finish? || e.Panic?)
    ensures Adds(spawn, out, Apply(spawn, s, e), n) == Adds(spawn, out, s, n)
  {
    hide OwesAll, WalkAll, Done;
    var w, t := e.w, Apply(spawn, s, e);
    FinishAdds(spawn, out, s, w, t.workers[w].phase, n);
    Regroup(Done(out, s.executed), WalkAll(spawn, out, s.injector, n), OwesAll(spawn, out, s.workers, n),
            Done(out, t.executed), WalkAll(spawn, out, s.injector, n), OwesAll(spawn, out, t.workers, n));
  }

  lemma StepAdds<J, O>(spawn: J -> seq<J>, out: J -> multiset<O>, s: State<J>, e: Event, n: nat)
    requires StateGrounded(spawn, s, n) && Enabled(s, e)
    ensures Adds(spawn, out, Apply(spawn, s, e), n) == Adds(spawn, out, s, n)
  {
    hide *;
    match e
    case Push(w) => PushStepAdds(spawn, out, s, w, n);
    case Miss(_) => PhaseStepAdds(spawn, out, s, e, n);
    case Check(_) => PhaseStepAdds(spawn, out, s, e, n);
    case Count(_) => PhaseStepAdds(spawn, out, s, e, n);
    case Finish(_) => EndStepAdds(spawn, out, s, e, n);
    case Panic(_) => EndStepAdds(spawn, out, s, e, n);
    case _ => TakingAdds(spawn, out, s, e, n);
  }

  lemma TakerGrounded<J>(spawn: J -> seq<J>, s: State<J>, e: Event, n: nat)
    requires StateGrounded(spawn, s, n) && Enabled(s, e) && (e.Pop? || e.StealGlobal? || e.StealPeer?)
    ensures WorkerGrounded(spawn, Apply(spawn, s, e).workers[e.w], n)
  {
    hide Grounded, TakeUp;
    match e
    case Pop(w) =>
      assert WorkerGrounded(spawn, s.workers[w], n);
      TakenUp(spawn, (j: J) => multiset{j}, s.workers[w].local, n);
    case StealGlobal(_, extra) => TakenUp(spawn, (j: J) => multiset{j}, s.injector[..extra + 1], n);
    case StealPeer(_, peer, extra) =>
      assert WorkerGrounded(spawn, s.workers[peer], n);
      TakenUp(spawn, (j: J) => multiset{j}, s.workers[peer].local[..extra + 1], n);
  }

  lemma WorkerStaysGrounded<J>(spawn: J -> seq<J>, s: State<J>, e: Event, n: nat, w: nat)
    requires StateGrounded(spawn, s, n) && Enabled(s, e) && w < |s.workers|
    ensures WorkerGrounded(spawn, Apply(spawn, s, e).workers[w], n)
  {
    if w == e.w && (e.Pop? || e.StealGlobal? || e.StealPeer?) {
      TakerGrounded(spawn, s, e, n);
    } else {
      assert WorkerGrounded(spawn, s.workers[w], n);
      hide Grounded, TakeUp, StateGrounded;
    }
  }

  lemma StepGrounded<J>(spawn: J -> seq<J>, s: State<J>, e: Event, n: nat)
    requires StateGrounded(spawn, s, n) && Enabled(s, e)
    ensures StateGrounded(spawn, Apply(spawn, s, e), n)
  {
    var t := Apply(spawn, s, e);
    assert WorkerGrounded(spawn, s.workers[e.w], n);
    hide Grounded, TakeUp, WorkerGrounded;
    forall w: nat | w < |t.workers| ensures WorkerGrounded(spawn, t.workers[w], n) {
      WorkerStaysGrounded(spawn, s, e, n, w);
    }
    InjectorStaysGrounded(spawn, s, e, n);
  }

  lemma InjectorStaysGrounded<J>(spawn: J -> seq<J>, s: State<J>, e: Event, n: nat)
    requires StateGrounded(spawn, s, n) && Enabled(s, e)
    ensures AllGrounded(spawn, Apply(spawn, s, e).injector, n)
  {
    assert WorkerGrounded(spawn, s.workers[e.w], n);
    hide Grounded, TakeUp;
  }

  lemma {:induction false} RunAdds<J, O>(spawn: J -> seq<J>, out: J -> multiset<O>, s: State<J>, events: seq<Event>,
                                         t: State<J>, n: nat)
    requires StateGrounded(spawn, s, n) && Reaches(spawn, s, events, t)
    ensures StateGrounded(spawn, t, n) && Adds(spawn, out, t, n) == Adds(spawn, out, s, n)
    decreases |events|
  {
    hide StateGrounded, Adds;
    if events != [] {
      StepAdds(spawn, out, s, events[0], n);
      StepGrounded(spawn, s, events[0], n);
      RunAdds(spawn, out, Apply(spawn, s, events[0]), events[1..], t, n);
    }
  }
}
