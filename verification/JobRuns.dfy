/** Whole runs of the queue: the outcome does not depend on the schedule, the work is bounded by the
    tree of jobs, and a run over an infinite tree never ends. */
module JobRuns {
  import opened JobQueues
  import opened JobTrees

  predicate AnyCrashed<J>(s: State<J>) {
    exists w: nat :: w < |s.workers| && s.workers[w].phase.Crashed?
  }

  predicate AnyExited<J>(s: State<J>) {
    exists w: nat :: w < |s.workers| && s.workers[w].phase.Exited?
  }

  // ---- the outcome ----

  lemma {:induction false} NothingOwed<J, O>(spawn: J -> seq<J>, out: J -> multiset<O>, workers: seq<Worker<J>>, n: nat)
    requires forall w: nat | w < |workers| ::
      workers[w].local == [] && !Busy(workers[w]) && !workers[w].phase.Crashed?
    ensures OwesAll(spawn, out, workers, n) == multiset{}
    decreases |workers|
  {
    if workers != [] { NothingOwed(spawn, out, workers[1..], n); }
  }

  lemma {:induction false} IdleOwesNothing<J, O>(spawn: J -> seq<J>, out: J -> multiset<O>, workers: seq<Worker<J>>, n: nat)
    requires forall w: nat | w < |workers| :: workers[w] == Worker([], Looking)
    ensures OwesAll(spawn, out, workers, n) == multiset{}
  {
    NothingOwed(spawn, out, workers, n);
  }

  lemma StartAdds<J, O>(spawn: J -> seq<J>, out: J -> multiset<O>, jobs: seq<J>, workers: nat, n: nat)
    requires AllGrounded(spawn, jobs, n)
    ensures StateGrounded(spawn, Start(jobs, workers), n)
    ensures Adds(spawn, out, Start(jobs, workers), n) == WalkAll(spawn, out, jobs, n)
  {
    IdleOwesNothing(spawn, out, Start(jobs, workers).workers, n);
    hide WalkAll, OwesAll, Grounded;
  }

  /** Every schedule puts out the same things, each the same number of times, as a sequential walk: once a
      worker has left and none has crashed, whatever the number of workers and however they interleaved. */
  lemma EveryScheduleMatchesWalk<J, O>(spawn: J -> seq<J>, out: J -> multiset<O>, jobs: seq<J>, workers: nat,
                                       events: seq<Event>, s: State<J>, n: nat)
    requires Reaches(spawn, Start(jobs, workers), events, s) && AllGrounded(spawn, jobs, n)
    requires AnyExited(s) && !AnyCrashed(s)
    ensures Done(out, s.executed) == WalkAll(spawn, out, jobs, n)
    ensures s.steals == |s.executed| && multiset(s.executed) == s.pushed
  {
    ExitMeansDone(spawn, jobs, workers, events, s);
    StartAdds(spawn, out, jobs, workers, n);
    RunAdds(spawn, out, Start(jobs, workers), events, s, n);
    NothingOwed(spawn, out, s.workers, n);
  }

  // ---- bounded work ----

  function ProductiveCount(events: seq<Event>): nat {
    if events == [] then 0 else (if Productive(events[0]) then 1 else 0) + ProductiveCount(events[1..])
  }

  function Progress<J>(s: State<J>): nat {
    s.steals + |s.executed| + 2 * |s.pushed| + CountedWorkers(s.workers)
  }

  lemma CountReplaced<J>(workers: seq<Worker<J>>, w: nat, now: Worker<J>)
    requires w < |workers|
    ensures CountedWorkers(workers[w := now]) + (if workers[w].phase.Counted? then 1 else 0)
         == CountedWorkers(workers) + if now.phase.Counted? then 1 else 0
  {
    Replaced(workers, w, now);
  }

  lemma StepProgress<J>(spawn: J -> seq<J>, s: State<J>, e: Event)
    requires Enabled(s, e)
    ensures Progress(Apply(spawn, s, e)) >= Progress(s) + if Productive(e) then 1 else 0
  {
    hide CountedWorkers;
    match e
    case StealPeer(w, peer, extra) =>
      var left := s.workers[peer].(local := s.workers[peer].local[extra + 1..]);
      var now := TakeUp(spawn, s.workers[peer].local[..extra + 1]);
      CountReplaced(s.workers, peer, left);
      CountReplaced(s.workers[peer := left], w, now);
    case Push(w) =>
      CountReplaced(s.workers, w, Apply(spawn, s, e).workers[w]);
    case _ => CountReplaced(s.workers, e.w, Apply(spawn, s, e).workers[e.w]);
  }

  lemma {:induction false} RunProgress<J>(spawn: J -> seq<J>, s: State<J>, events: seq<Event>, t: State<J>)
    requires Reaches(spawn, s, events, t)
    ensures Progress(t) >= Progress(s) + ProductiveCount(events)
    decreases |events|
  {
    hide Progress;
    if events != [] {
      StepProgress(spawn, s, events[0]);
      RunProgress(spawn, Apply(spawn, s, events[0]), events[1..], t);
    }
  }

  function Itself<J>(job: J): multiset<J> {
    multiset{job}
  }

  /** The number of jobs in the trees below `jobs`. */
  ghost function TreeSize<J>(spawn: J -> seq<J>, jobs: seq<J>, n: nat): nat {
    |WalkAll(spawn, j => Itself(j), jobs, n)|
  }

  lemma {:induction false} TreeHasRoots<J>(spawn: J -> seq<J>, out: J -> multiset<J>, jobs: seq<J>, n: nat)
    requires AllGrounded(spawn, jobs, n) && forall j :: |out(j)| == 1
    ensures |jobs| <= |WalkAll(spawn, out, jobs, n)|
    decreases |jobs|
  {
    if jobs != [] {
      Unfold(spawn, out, jobs[0], n);
      hide Grounded, Walk;
      TreeHasRoots(spawn, out, jobs[1..], n);
    }
  }

  lemma {:induction false} DoneCounts<J>(out: J -> multiset<J>, executed: seq<J>)
    requires forall j :: |out(j)| == 1
    ensures |Done(out, executed)| == |executed|
    decreases |executed|
  {
    if executed != [] { DoneCounts(out, executed[..|executed| - 1]); }
  }

  lemma HeldOwes<J>(spawn: J -> seq<J>, out: J -> multiset<J>, worker: Worker<J>, n: nat)
    requires WorkerGrounded(spawn, worker, n) && forall j :: |out(j)| == 1
    ensures |HeldBy(worker)| <= |Owes(spawn, out, worker, n)|
  {
    TreeHasRoots(spawn, out, worker.local, n);
  }

  lemma {:induction false} AllHeldOwe<J>(spawn: J -> seq<J>, out: J -> multiset<J>, workers: seq<Worker<J>>, n: nat)
    requires forall w: nat | w < |workers| :: WorkerGrounded(spawn, workers[w], n)
    requires forall j :: |out(j)| == 1
    ensures |HeldByAll(workers)| <= |OwesAll(spawn, out, workers, n)|
    decreases |workers|
  {
    if workers != [] {
      HeldOwes(spawn, out, workers[0], n);
      hide WorkerGrounded, Owes, HeldBy;
      AllHeldOwe(spawn, out, workers[1..], n);
    }
  }

  lemma PushedWithinTree<J>(spawn: J -> seq<J>, out: J -> multiset<J>, jobs: seq<J>, s: State<J>, n: nat)
    requires Balanced(s) && StateGrounded(spawn, s, n) && forall j :: |out(j)| == 1
    requires Adds(spawn, out, s, n) == WalkAll(spawn, out, jobs, n)
    ensures |s.pushed| <= |WalkAll(spawn, out, jobs, n)|
  {
    DoneCounts(out, s.executed);
    TreeHasRoots(spawn, out, s.injector, n);
    AllHeldOwe(spawn, out, s.workers, n);
    hide WalkAll, OwesAll, Done, HeldByAll, WorkerGrounded, AllGrounded;
  }

  lemma {:induction false} CountedAreBusy<J>(workers: seq<Worker<J>>)
    ensures CountedWorkers(workers) <= BusyWorkers(workers) <= |HeldByAll(workers)|
    decreases |workers|
  {
    if workers != [] {
      CountedAreBusy(workers[1..]);
      assert |HeldBy(workers[0])| == |workers[0].local| + if Busy(workers[0]) then 1 else 0;
      hide HeldBy;
    }
  }

  /** However long the workers wait for each other, the steps that get on with a job are bounded by four
      for each job of the tree; with `NoDeadlock`, a fair run over a finite tree comes to an end. */
  lemma BoundedWork<J>(spawn: J -> seq<J>, jobs: seq<J>, workers: nat, events: seq<Event>, s: State<J>, n: nat)
    requires Reaches(spawn, Start(jobs, workers), events, s) && AllGrounded(spawn, jobs, n)
    ensures ProductiveCount(events) <= 4 * TreeSize(spawn, jobs, n)
  {
    var out := j => Itself(j);
    StartInvariant(jobs, workers);
    RunInvariant(spawn, Start(jobs, workers), events, s);
    RunProgress(spawn, Start(jobs, workers), events, s);
    StartAdds(spawn, out, jobs, workers, n);
    RunAdds(spawn, out, Start(jobs, workers), events, s, n);
    PushedWithinTree(spawn, out, jobs, s, n);
    CountedAreBusy(s.workers);
    hide WalkAll, OwesAll, Done, HeldByAll, StateGrounded, BusyWorkers, CountedWorkers, Reaches;
  }

  // ---- infinite trees ----

  /** Every job in `c` spawns another one in `c`. */
  ghost predicate Feeding<J(!new)>(spawn: J -> seq<J>, c: iset<J>) {
    forall j | j in c :: Meets(spawn(j), c)
  }

  ghost predicate Meets<J>(jobs: seq<J>, c: iset<J>) {
    exists j :: j in jobs && j in c
  }

  ghost predicate WorkerMeets<J>(worker: Worker<J>, c: iset<J>) {
    Meets(worker.local, c) || (Busy(worker) && Meets(worker.phase.todo, c))
  }

  /** A job of `c` waits, or is about to be pushed. */
  ghost predicate Alive<J>(s: State<J>, c: iset<J>) {
    Meets(s.injector, c) || exists w: nat :: w < |s.workers| && WorkerMeets(s.workers[w], c)
  }

  lemma TakenUpMeets<J(!new)>(spawn: J -> seq<J>, batch: seq<J>, c: iset<J>)
    requires Feeding(spawn, c) && Meets(batch, c)
    ensures WorkerMeets(TakeUp(spawn, batch), c)
  {
    var j :| j in batch && j in c;
    assert batch == [batch[0]] + batch[1..];
    if j in batch[1..] { assert Meets(batch[1..], c); }
  }

  lemma SplitMeets<J>(jobs: seq<J>, k: nat, c: iset<J>)
    requires k <= |jobs| && Meets(jobs, c)
    ensures Meets(jobs[..k], c) || Meets(jobs[k..], c)
  {
    var j :| j in jobs && j in c;
    assert jobs == jobs[..k] + jobs[k..];
  }

  lemma MeetsMore<J>(jobs: seq<J>, job: J, c: iset<J>)
    ensures Meets(jobs, c) || job in c ==> Meets(jobs + [job], c)
  {
    if j :| j in jobs && j in c { assert j in jobs + [job]; }
    assert job in jobs + [job];
  }

  lemma InjectorStaysAlive<J(!new)>(spawn: J -> seq<J>, s: State<J>, e: Event, c: iset<J>)
    requires Feeding(spawn, c) && Enabled(s, e) && Meets(s.injector, c)
    ensures Alive(Apply(spawn, s, e), c)
  {
    hide Feeding, Meets, WorkerMeets, TakeUp;
    match e
    case StealGlobal(w, extra) =>
      SplitMeets(s.injector, extra + 1, c);
      if Meets(s.injector[..extra + 1], c) {
        TakenUpMeets(spawn, s.injector[..extra + 1], c);
        assert WorkerMeets(Apply(spawn, s, e).workers[w], c);
      }
    case Push(w) => MeetsMore(s.injector, s.workers[w].phase.todo[0], c);
    case _ =>
  }

  /** A worker that is not concerned stays as it was; a robbed one may have passed the job on. */
  lemma PeerStaysAlive<J(!new)>(spawn: J -> seq<J>, s: State<J>, e: Event, c: iset<J>, v: nat)
    requires Feeding(spawn, c) && Enabled(s, e) && v < |s.workers| && v != e.w && WorkerMeets(s.workers[v], c)
    ensures Alive(Apply(spawn, s, e), c)
  {
    var t := Apply(spawn, s, e);
    hide Feeding, Meets, TakeUp;
    if e.StealPeer? && e.peer == v && Meets(s.workers[v].local, c) {
      SplitMeets(s.workers[v].local, e.extra + 1, c);
      if Meets(s.workers[v].local[..e.extra + 1], c) {
        TakenUpMeets(spawn, s.workers[v].local[..e.extra + 1], c);
        assert WorkerMeets(t.workers[e.w], c);
      } else {
        assert WorkerMeets(t.workers[v], c);
      }
    } else {
      assert WorkerMeets(t.workers[v], c);
    }
  }

  lemma OwnStaysAlive<J(!new)>(spawn: J -> seq<J>, s: State<J>, e: Event, c: iset<J>)
    requires Feeding(spawn, c) && Enabled(s, e) && !e.Panic? && WorkerMeets(s.workers[e.w], c)
    ensures Alive(Apply(spawn, s, e), c)
  {
    var worker, now := s.workers[e.w], Apply(spawn, s, e).workers[e.w];
    if e.Pop? {
      TakenUpMeets(spawn, worker.local, c);
      assert WorkerMeets(now, c);
    } else if e.Push? && !Meets(worker.local, c) {
      var j :| j in worker.phase.todo && j in c;
      if j == worker.phase.todo[0] {
        MeetsMore(s.injector, j, c);
      } else {
        assert j in worker.phase.todo[1..];
        assert WorkerMeets(now, c);
      }
    } else {
      hide Feeding, TakeUp;
      assert WorkerMeets(now, c);
    }
  }

  lemma StepAlive<J(!new)>(spawn: J -> seq<J>, s: State<J>, e: Event, c: iset<J>)
    requires Feeding(spawn, c) && Enabled(s, e) && !e.Panic? && Alive(s, c)
    ensures Alive(Apply(spawn, s, e), c)
  {
    hide Feeding, Meets, WorkerMeets, Apply;
    if Meets(s.injector, c) {
      InjectorStaysAlive(spawn, s, e, c);
    } else {
      var v: nat :| v < |s.workers| && WorkerMeets(s.workers[v], c);
      if v == e.w { OwnStaysAlive(spawn, s, e, c); } else { PeerStaysAlive(spawn, s, e, c, v); }
    }
  }

  lemma CrashStaysOnce<J>(spawn: J -> seq<J>, s: State<J>, e: Event, w: nat)
    requires Enabled(s, e) && w < |s.workers| && s.workers[w].phase.Crashed?
    ensures |Apply(spawn, s, e).workers| == |s.workers| && Apply(spawn, s, e).workers[w].phase.Crashed?
  {
  }

  lemma {:induction false} CrashStays<J>(spawn: J -> seq<J>, s: State<J>, events: seq<Event>, t: State<J>, w: nat)
    requires Reaches(spawn, s, events, t) && w < |s.workers| && s.workers[w].phase.Crashed?
    ensures AnyCrashed(t)
    decreases |events|
  {
    if events != [] {
      CrashStaysOnce(spawn, s, events[0], w);
      hide AnyCrashed, Enabled, Apply;
      CrashStays(spawn, Apply(spawn, s, events[0]), events[1..], t, w);
    }
  }

  lemma {:induction false} RunAlive<J(!new)>(spawn: J -> seq<J>, s: State<J>, events: seq<Event>, t: State<J>, c: iset<J>)
    requires Feeding(spawn, c) && Reaches(spawn, s, events, t) && Alive(s, c) && !AnyCrashed(t)
    ensures Alive(t, c)
    decreases |events|
  {
    if events != [] {
      var next := Apply(spawn, s, events[0]);
      if events[0].Panic? {
        CrashStays(spawn, next, events[1..], t, events[0].w);
      } else {
        StepAlive(spawn, s, events[0], c);
        hide Feeding, Alive, AnyCrashed;
        RunAlive(spawn, next, events[1..], t, c);
      }
    }
  }

  // ---- finite trees are exactly what a run can finish ----

  ghost predicate HasFiniteTree<J(!new)>(spawn: J -> seq<J>, job: J) {
    exists n: nat :: Grounded(spawn, job, n)
  }

  lemma {:induction false} GroundedAbove<J>(spawn: J -> seq<J>, job: J, n: nat, m: nat)
    requires Grounded(spawn, job, n) && n <= m
    ensures Grounded(spawn, job, m)
    decreases m
  {
    if n < m {
      forall i | 0 <= i < |spawn(job)| ensures Grounded(spawn, spawn(job)[i], m - 1) {
        GroundedAbove(spawn, spawn(job)[i], n - 1, m - 1);
      }
    }
  }

  lemma {:induction false} CommonBound<J(!new)>(spawn: J -> seq<J>, jobs: seq<J>) returns (n: nat)
    requires forall i | 0 <= i < |jobs| :: HasFiniteTree(spawn, jobs[i])
    ensures AllGrounded(spawn, jobs, n)
    decreases |jobs|
  {
    n := 0;
    if jobs != [] {
      var m := CommonBound(spawn, jobs[1..]);
      assert HasFiniteTree(spawn, jobs[0]);
      var k :| Grounded(spawn, jobs[0], k);
      n := m + k;
      forall i | 0 <= i < |jobs| ensures Grounded(spawn, jobs[i], n) {
        if i == 0 { GroundedAbove(spawn, jobs[0], k, n); }
        else {
          assert Grounded(spawn, jobs[1..][i - 1], m);
          GroundedAbove(spawn, jobs[i], m, n);
        }
      }
    }
  }

  /** A job with an infinite tree has a child with one. */
  lemma InfiniteTreesFeed<J(!new)>(spawn: J -> seq<J>)
    ensures Feeding(spawn, iset j | !HasFiniteTree(spawn, j))
  {
    var c := iset j | !HasFiniteTree(spawn, j);
    forall j | j in c ensures Meets(spawn(j), c) {
      if forall i | 0 <= i < |spawn(j)| :: HasFiniteTree(spawn, spawn(j)[i]) {
        var n := CommonBound(spawn, spawn(j));
        assert Grounded(spawn, j, n + 1);
      }
      var i :| 0 <= i < |spawn(j)| && !HasFiniteTree(spawn, spawn(j)[i]);
      assert spawn(j)[i] in spawn(j) && spawn(j)[i] in c;
    }
  }

  /** Without a crash, a worker leaves only if every job started with has a finite tree. */
  lemma OnlyFiniteTreesEnd<J(!new)>(spawn: J -> seq<J>, jobs: seq<J>, workers: nat, events: seq<Event>, s: State<J>,
                                    i: nat)
    requires Reaches(spawn, Start(jobs, workers), events, s) && AnyExited(s) && !AnyCrashed(s)
    requires i < |jobs|
    ensures HasFiniteTree(spawn, jobs[i])
  {
    if !HasFiniteTree(spawn, jobs[i]) {
      var c := iset j | !HasFiniteTree(spawn, j);
      InfiniteTreesFeed(spawn);
      assert jobs[i] in jobs && jobs[i] in c;
      RunAlive(spawn, Start(jobs, workers), events, s, c);
      ExitMeansDone(spawn, jobs, workers, events, s);
      assert false;
    }
  }

  /** So the outcome of a run that ends without a crash is always that of a sequential walk. */
  lemma RunsEndAsWalks<J(!new), O>(spawn: J -> seq<J>, out: J -> multiset<O>, jobs: seq<J>, workers: nat,
                                   events: seq<Event>, s: State<J>)
    requires Reaches(spawn, Start(jobs, workers), events, s) && AnyExited(s) && !AnyCrashed(s)
    ensures exists n: nat :: AllGrounded(spawn, jobs, n) && Done(out, s.executed) == WalkAll(spawn, out, jobs, n)
  {
    forall i: nat | i < |jobs| ensures HasFiniteTree(spawn, jobs[i]) {
      OnlyFiniteTreesEnd(spawn, jobs, workers, events, s, i);
    }
    var n := CommonBound(spawn, jobs);
    EveryScheduleMatchesWalk(spawn, out, jobs, workers, events, s, n);
  }

  lemma {:induction false} ReachesThen<J>(spawn: J -> seq<J>, s: State<J>, a: seq<Event>, t: State<J>, b: seq<Event>,
                                          u: State<J>)
    requires Reaches(spawn, s, a, t) && Reaches(spawn, t, b, u)
    ensures Reaches(spawn, s, a + b, u)
    ensures ProductiveCount(a + b) == ProductiveCount(a) + ProductiveCount(b)
    decreases |a|
  {
    if a == [] {
      assert a + b == b;
    } else {
      assert (a + b)[1..] == a[1..] + b;
      ReachesThen(spawn, Apply(spawn, s, a[0]), a[1..], t, b, u);
    }
  }
}
