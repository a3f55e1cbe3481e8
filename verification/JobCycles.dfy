/** Over finitely many jobs, the trees below a job are infinite exactly if a cycle can be reached from it. */
module JobCycles {
  import opened JobQueues
  import opened JobTrees
  import opened JobRuns

  /** Each job of `p` is spawned by the one before it. */
  ghost predicate Trail<J>(spawn: J -> seq<J>, p: seq<J>) {
    p != [] && forall i | 0 <= i < |p| - 1 :: p[i + 1] in spawn(p[i])
  }

  /** A trail from `job` comes back to where it has been. */
  ghost predicate ReachesCycle<J(!new)>(spawn: J -> seq<J>, job: J) {
    exists p, i, j :: Trail(spawn, p) && p[0] == job && 0 <= i < j < |p| && p[i] == p[j]
  }

  ghost predicate Closed<J>(spawn: J -> seq<J>, jobs: set<J>) {
    forall j | j in jobs :: forall k | k in spawn(j) :: k in jobs
  }

  lemma TrailBefore<J>(spawn: J -> seq<J>, job: J, p: seq<J>)
    requires Trail(spawn, p) && p[0] in spawn(job)
    ensures Trail(spawn, [job] + p)
  {
  }

  lemma TrailTail<J>(spawn: J -> seq<J>, p: seq<J>, i: nat)
    requires Trail(spawn, p) && i < |p|
    ensures Trail(spawn, p[i..])
  {
  }

  /** A tree with more than `n` levels has a trail through more than `n` jobs. */
  lemma {:induction false} LongTrail<J>(spawn: J -> seq<J>, job: J, n: nat) returns (p: seq<J>)
    requires !Grounded(spawn, job, n)
    ensures Trail(spawn, p) && p[0] == job && |p| == n + 1
    decreases n
  {
    p := [job];
    if n > 0 {
      var i :| 0 <= i < |spawn(job)| && !Grounded(spawn, spawn(job)[i], n - 1);
      var rest := LongTrail(spawn, spawn(job)[i], n - 1);
      TrailBefore(spawn, job, rest);
      p := [job] + rest;
    }
  }

  lemma {:induction false} TrailStays<J>(spawn: J -> seq<J>, jobs: set<J>, p: seq<J>)
    requires Closed(spawn, jobs) && Trail(spawn, p) && p[0] in jobs
    ensures forall i | 0 <= i < |p| :: p[i] in jobs
    decreases |p|
  {
    if |p| > 1 {
      TrailTail(spawn, p, 1);
      TrailStays(spawn, jobs, p[1..]);
    }
  }

  lemma {:induction false} Pigeonhole<J>(p: seq<J>, jobs: set<J>)
    requires (forall i | 0 <= i < |p| :: p[i] in jobs) && |p| > |jobs|
    ensures exists i, j :: 0 <= i < j < |p| && p[i] == p[j]
    decreases |p|
  {
    var last := p[|p| - 1];
    if i :| 0 <= i < |p| - 1 && p[i] == last {
      assert p[i] == p[|p| - 1];
    } else {
      var front := p[..|p| - 1];
      assert |jobs - {last}| == |jobs| - 1;
      Pigeonhole(front, jobs - {last});
      var i, j :| 0 <= i < j < |front| && front[i] == front[j];
      assert p[i] == p[j];
    }
  }

  /** Grounded jobs stay grounded along a trail, with one level less for each step. */
  lemma {:induction false} GroundedAlong<J>(spawn: J -> seq<J>, p: seq<J>, n: nat)
    requires Trail(spawn, p) && Grounded(spawn, p[0], n)
    ensures n >= |p| && Grounded(spawn, p[|p| - 1], n - (|p| - 1))
    decreases |p|
  {
    if |p| > 1 {
      var i :| 0 <= i < |spawn(p[0])| && spawn(p[0])[i] == p[1];
      TrailTail(spawn, p, 1);
      GroundedAlong(spawn, p[1..], n - 1);
    }
  }

  lemma {:induction false} NoCycleBelow<J>(spawn: J -> seq<J>, p: seq<J>, n: nat)
    requires Trail(spawn, p) && |p| > 1 && p[0] == p[|p| - 1]
    ensures !Grounded(spawn, p[0], n)
    decreases n
  {
    if Grounded(spawn, p[0], n) {
      GroundedAlong(spawn, p, n);
      NoCycleBelow(spawn, p, n - (|p| - 1));
    }
  }

  lemma CyclesAreInfinite<J(!new)>(spawn: J -> seq<J>, job: J)
    requires ReachesCycle(spawn, job)
    ensures !HasFiniteTree(spawn, job)
  {
    var p, i, j :| Trail(spawn, p) && p[0] == job && 0 <= i < j < |p| && p[i] == p[j];
    forall n: nat ensures !Grounded(spawn, job, n) {
      if Grounded(spawn, job, n) {
        GroundedAlong(spawn, p[..i + 1], n);
        TrailTail(spawn, p[..j + 1], i);
        NoCycleBelow(spawn, p[..j + 1][i..], n - i);
      }
    }
  }

  /** The bound on the depth is the number of jobs. */
  lemma FiniteWithoutCycles<J(!new)>(spawn: J -> seq<J>, jobs: set<J>, job: J)
    requires Closed(spawn, jobs) && job in jobs && !ReachesCycle(spawn, job)
    ensures Grounded(spawn, job, |jobs|)
  {
    if !Grounded(spawn, job, |jobs|) {
      var p := LongTrail(spawn, job, |jobs|);
      TrailStays(spawn, jobs, p);
      Pigeonhole(p, jobs);
    }
  }

  /** A run over jobs from which a cycle can be reached never ends without a crash, whatever the schedule. */
  lemma CyclicRunsNeverEnd<J(!new)>(spawn: J -> seq<J>, jobs: seq<J>, job: J, workers: nat, events: seq<Event>, s: State<J>)
    requires job in jobs && ReachesCycle(spawn, job)
    requires Reaches(spawn, Start(jobs, workers), events, s) && !AnyCrashed(s)
    ensures !AnyExited(s) && s.inFlight > 0
  {
    var c := iset j | !HasFiniteTree(spawn, j);
    CyclesAreInfinite(spawn, job);
    InfiniteTreesFeed(spawn);
    assert Meets(jobs, c);
    RunAlive(spawn, Start(jobs, workers), events, s, c);
    StartInvariant(jobs, workers);
    RunInvariant(spawn, Start(jobs, workers), events, s);
    AliveCounts(s, c);
  }

  lemma AliveCounts<J(!new)>(s: State<J>, c: iset<J>)
    requires Invariant(s) && Alive(s, c)
    ensures s.inFlight > 0
  {
    if s.inFlight == 0 { CounterZeroMeansQuiet(s); }
  }
}
