/** The queue as it is programmed: shared fields changed step by step, each change one of the state
    machine's events. */
module WorkQueues {
  import opened Declarations
  import opened JobQueues
  import opened JobTrees
  import opened JobRuns

  class WorkQueue<J(!new)> {
    const spawn: J -> seq<J>
    var injector: seq<J>
    var inFlight: int
    var workers: seq<Worker<J>>
    ghost var pushed: multiset<J>
    ghost var executed: seq<J>
    ghost var steals: nat

    ghost function State(): State<J>
      reads this
    {
      JobQueues.State(injector, inFlight, workers, pushed, executed, steals)
    }

    constructor (spawn: J -> seq<J>, count: nat)
      ensures this.spawn == spawn && State() == Start([], count)
    {
      this.spawn := spawn;
      injector, inFlight, workers := [], 0, seq(count, _ => Worker([], Looking));
      pushed, executed, steals := multiset{}, [], 0;
    }

    /** `push` before the workers have been started */
    method PushFirst(job: J, ghost jobs: seq<J>)
      requires State() == Start(jobs, |workers|)
      modifies this
      ensures State() == Start(jobs + [job], old(|workers|))
    {
      inFlight := inFlight + 1;
      injector := injector + [job];
      pushed := pushed + multiset{job};
      assert multiset(jobs + [job]) == multiset(jobs) + multiset{job};
    }

    /** `push` from within a running job */
    method PushNext(w: nat) returns (ghost events: seq<Event>)
      requires w < |workers| && workers[w].phase.Running? && workers[w].phase.todo != []
      modifies this
      ensures events == [Count(w), Push(w)] && Reaches(spawn, old(State()), events, State())
      ensures |workers| == old(|workers|) && workers[w].phase == old(Running(workers[w].phase.job, workers[w].phase.todo[1..]))
      ensures forall v | 0 <= v < |workers| && v != w :: workers[v] == old(workers[v])
    {
      ghost var s := State();
      var phase := workers[w].phase;
      inFlight := inFlight + 1;
      workers := workers[w := workers[w].(phase := Counted(phase.job, phase.todo))];
      ghost var t := State();
      injector := injector + [phase.todo[0]];
      pushed := pushed + multiset{phase.todo[0]};
      workers := workers[w := workers[w].(phase := Running(phase.job, phase.todo[1..]))];
      events := [Count(w), Push(w)];
      TwoSteps(spawn, s, Count(w), t, Push(w), State());
    }

    /** `steal_job`: the own queue first, then the injector, then the peers in order. */
    method StealJob(w: nat, contended: bool) returns (found: Option<J>, ghost e: Event)
      requires w < |workers| && workers[w].phase.Looking?
      modifies this
      ensures |workers| == old(|workers|)
      ensures found.Some? ==>
        && Enabled(old(State()), e) && e.w == w && (e.Pop? || e.StealGlobal? || e.StealPeer?)
        && State() == Apply(spawn, old(State()), e) && found.value == workers[w].phase.job
      ensures old(workers[w].local) != [] ==> found.Some? && e.Pop?
      ensures old(workers[w].local == [] && injector != []) && found.Some? ==> e.StealGlobal?
      ensures found.None? ==> State() == old(State())
      ensures found.None? && !contended ==> injector == [] && forall v | 0 <= v < |workers| :: workers[v].local == []
    {
      hide Enabled, Apply;
      e := Miss(w);
      if workers[w].local != [] {
        found, e := PopOwn(w);
        return;
      }
      var retry: bool := *;
      if contended && retry { return None, e; }
      if injector != [] {
        found, e := StealFromInjector(w);
        return;
      }
      found, e := StealFromPeers(w, contended);
    }

    method PopOwn(w: nat) returns (found: Option<J>, ghost e: Event)
      requires w < |workers| && workers[w].phase.Looking? && workers[w].local != []
      modifies this
      ensures |workers| == old(|workers|) && found.Some? && e == Pop(w) && Enabled(old(State()), e)
      ensures State() == Apply(spawn, old(State()), e) && found.value == workers[w].phase.job
    {
      found, e := Some(workers[w].local[0]), Pop(w);
      workers := workers[w := TakeUp(spawn, workers[w].local)];
      steals := steals + 1;
    }

    method StealFromInjector(w: nat) returns (found: Option<J>, ghost e: Event)
      requires w < |workers| && workers[w].phase.Looking? && workers[w].local == [] && injector != []
      modifies this
      ensures |workers| == old(|workers|) && found.Some? && e.StealGlobal? && e.w == w && Enabled(old(State()), e)
      ensures State() == Apply(spawn, old(State()), e) && found.value == workers[w].phase.job
    {
      var extra: nat :| extra < |injector|;
      found, e := Some(injector[0]), StealGlobal(w, extra);
      workers := workers[w := TakeUp(spawn, injector[..extra + 1])];
      injector := injector[extra + 1..];
      steals := steals + 1;
    }

    method StealFromPeers(w: nat, contended: bool) returns (found: Option<J>, ghost e: Event)
      requires w < |workers| && workers[w].phase.Looking? && workers[w].local == [] && injector == []
      modifies this
      ensures |workers| == old(|workers|)
      ensures found.Some? ==>
        && e.StealPeer? && e.w == w && Enabled(old(State()), e)
        && State() == Apply(spawn, old(State()), e) && found.value == workers[w].phase.job
      ensures found.None? ==> State() == old(State())
      ensures found.None? && !contended ==> injector == [] && forall v | 0 <= v < |workers| :: workers[v].local == []
    {
      hide Enabled, Apply;
      e := Miss(w);
      var peer := 0;
      while peer < |workers|
        invariant 0 <= peer <= |workers|
        invariant State() == old(State())
        invariant forall v | 0 <= v < peer :: workers[v].local == []
      {
        var retry: bool := *;
        if contended && retry { return None, e; }
        if workers[peer].local != [] {
          found, e := StealFrom(w, peer);
          return;
        }
        peer := peer + 1;
      }
      found := None;
    }

    method StealFrom(w: nat, peer: nat) returns (found: Option<J>, ghost e: Event)
      requires w < |workers| && workers[w].phase.Looking? && workers[w].local == []
      requires peer < |workers| && workers[peer].local != []
      modifies this
      ensures |workers| == old(|workers|) && found.Some? && e.StealPeer? && e.w == w && Enabled(old(State()), e)
      ensures State() == Apply(spawn, old(State()), e) && found.value == workers[w].phase.job
    {
      var batch := workers[peer].local;
      var extra: nat :| extra < |batch|;
      found, e := Some(batch[0]), StealPeer(w, peer, extra);
      workers := workers[peer := workers[peer].(local := batch[extra + 1..])];
      workers := workers[w := TakeUp(spawn, batch[..extra + 1])];
      steals := steals + 1;
    }

    /** `job.run()` followed by the decrement of the counter */
    method RunJob(w: nat) returns (ghost events: seq<Event>)
      requires w < |workers| && workers[w].phase.Running?
      modifies this
      ensures Reaches(spawn, old(State()), events, State()) && ProductiveCount(events) > 0
      ensures |workers| == old(|workers|) && workers[w].phase.Looking?
      ensures forall v | 0 <= v < |workers| && v != w :: workers[v] == old(workers[v])
    {
      ghost var s := State();
      events := [];
      while workers[w].phase.todo != []
        invariant |workers| == old(|workers|) && workers[w].phase.Running?
        invariant forall v | 0 <= v < |workers| && v != w :: workers[v] == old(workers[v])
        invariant Reaches(spawn, s, events, State())
        decreases |workers[w].phase.todo|
      {
        ghost var t := State();
        ghost var two := PushNext(w);
        ReachesThen(spawn, s, events, t, two, State());
        events := events + two;
      }
      ghost var t := State();
      executed := executed + [workers[w].phase.job];
      inFlight := inFlight - 1;
      workers := workers[w := workers[w].(phase := Looking)];
      OneStep(spawn, t, Finish(w), State());
      ReachesThen(spawn, s, events, t, [Finish(w)], State());
      events := events + [Finish(w)];
    }

    /** One turn of `worker_loop` */
    method Turn(w: nat, contended: bool) returns (done: bool, ghost events: seq<Event>)
      requires w < |workers| && workers[w].phase.Looking?
      modifies this
      ensures Reaches(spawn, old(State()), events, State())
      ensures |workers| == old(|workers|) && if done then workers[w].phase.Exited? else workers[w].phase.Looking?
      ensures forall v | 0 <= v < |workers| && v != w && old(workers[v]) == Worker([], Looking) ::
        workers[v] == Worker([], Looking)
      ensures !contended && !done && ProductiveCount(events) == 0 ==>
        inFlight != 0 && State() == old(State()) && injector == []
        && forall v | 0 <= v < |workers| :: workers[v].local == []
    {
      hide Apply, Enabled, Reaches, ProductiveCount;
      ghost var s := State();
      var found, e := StealJob(w, contended);
      ghost var t := State();
      if found.None? {
        done, events := LookAtCounter(w);
      } else {
        done := false;
        OneStep(spawn, s, e, t);
        OthersStayIdle(spawn, s, e);
        TakenIsRunning(spawn, s, e, t);
        events := RunJob(w);
        ReachesThen(spawn, s, [e], t, events, State());
        events := [e] + events;
      }
    }

    /** Nothing was found: the worker leaves if the counter says so. */
    method LookAtCounter(w: nat) returns (done: bool, ghost events: seq<Event>)
      requires w < |workers| && workers[w].phase.Looking? && workers[w].local == []
      modifies this`workers
      ensures done <==> inFlight == 0
      ensures Reaches(spawn, old(State()), events, State()) && ProductiveCount(events) == 0
      ensures workers == old(workers[w := workers[w].(phase := if inFlight == 0 then Exited else Looking)])
    {
      ghost var s := State();
      workers := workers[w := workers[w].(phase := Checking)];
      ghost var t := State();
      done := inFlight == 0;
      workers := workers[w := workers[w].(phase := if done then Exited else Looking)];
      TwoSteps(spawn, s, Miss(w), t, Check(w), State());
      events := [Miss(w), Check(w)];
      assert events[1..] == [Check(w)] && events[1..][1..] == [];
      assert ProductiveCount(events[1..]) == 0;
    }

    /** `worker_loop` of a worker that is left alone: it takes and runs one job after the other and leaves
        when there is none left; the bound on the steps of any run is what makes it end. */
    method WorkerLoop(w: nat, ghost jobs: seq<J>, ghost n: nat) returns (ghost events: seq<Event>)
      requires w < |workers| && State() == Start(jobs, |workers|) && AllGrounded(spawn, jobs, n)
      modifies this
      ensures Reaches(spawn, old(State()), events, State())
      ensures AnyExited(State()) && !AnyCrashed(State())
    {
      hide Reaches, ProductiveCount, TreeSize, AllGrounded, Busy, Start, AnyCrashed, AnyExited;
      ghost var s := State();
      events := [];
      var done := false;
      StartsIdle(spawn, jobs, s);
      while !done
        invariant |workers| == old(|workers|)
        invariant if done then workers[w].phase.Exited? else workers[w].phase.Looking?
        invariant forall v | 0 <= v < |workers| && v != w :: workers[v] == Worker([], Looking)
        invariant Reaches(spawn, s, events, State())
        decreases !done, 4 * TreeSize(spawn, jobs, n) - ProductiveCount(events)
      {
        ghost var t := State();
        ghost var turn;
        done, turn := Turn(w, false);
        ReachesThen(spawn, s, events, t, turn, State());
        events := events + turn;
        BoundedWork(spawn, jobs, |workers|, events, State(), n);
        if !done {
          AllLook(State());
          ProgressMade(spawn, jobs, |workers|, events, State(), turn);
        }
      }
      LeftAlone(State(), w);
    }
  }

  lemma StartsIdle<J>(spawn: J -> seq<J>, jobs: seq<J>, s: State<J>)
    requires s == Start(jobs, |s.workers|)
    ensures Reaches(spawn, s, [], s) && forall v | 0 <= v < |s.workers| :: s.workers[v] == Worker([], Looking)
  {
  }

  lemma AllLook<J>(s: State<J>)
    requires forall v | 0 <= v < |s.workers| :: s.workers[v].phase.Looking?
    ensures forall v | 0 <= v < |s.workers| :: !Busy(s.workers[v])
  {
  }

  lemma LeftAlone<J>(s: State<J>, w: nat)
    requires w < |s.workers| && s.workers[w].phase.Exited?
    requires forall v | 0 <= v < |s.workers| && v != w :: s.workers[v] == Worker([], Looking)
    ensures AnyExited(s) && !AnyCrashed(s)
  {
  }

  lemma ProgressMade<J>(spawn: J -> seq<J>, jobs: seq<J>, workers: nat, events: seq<Event>, s: State<J>, turn: seq<Event>)
    requires Reaches(spawn, Start(jobs, workers), events, s)
    requires forall w | 0 <= w < |s.workers| :: !Busy(s.workers[w])
    requires ProductiveCount(turn) == 0 ==>
      s.inFlight != 0 && s.injector == [] && forall w | 0 <= w < |s.workers| :: s.workers[w].local == []
    ensures ProductiveCount(turn) > 0
  {
    StartInvariant(jobs, workers);
    RunInvariant(spawn, Start(jobs, workers), events, s);
    if ProductiveCount(turn) == 0 { AllIdle(s.workers); }
  }

  /** A steal touches only the worker itself and a peer with something to steal. */
  lemma OthersStayIdle<J>(spawn: J -> seq<J>, s: State<J>, e: Event)
    requires Enabled(s, e)
    ensures |Apply(spawn, s, e).workers| == |s.workers|
    ensures forall v | 0 <= v < |s.workers| && v != e.w && s.workers[v] == Worker([], Looking) ::
      Apply(spawn, s, e).workers[v] == Worker([], Looking)
  {
  }

  lemma TakenIsRunning<J>(spawn: J -> seq<J>, s: State<J>, e: Event, t: State<J>)
    requires Enabled(s, e) && Apply(spawn, s, e) == t && (e.Pop? || e.StealGlobal? || e.StealPeer?)
    ensures e.w < |t.workers| && t.workers[e.w].phase.Running?
  {
  }

  lemma OneStep<J>(spawn: J -> seq<J>, s: State<J>, e: Event, t: State<J>)
    requires Enabled(s, e) && Apply(spawn, s, e) == t
    ensures Reaches(spawn, s, [e], t)
  {
    hide Enabled, Apply;
    assert [e][1..] == [];
    assert Reaches(spawn, t, [], t);
  }

  lemma TwoSteps<J>(spawn: J -> seq<J>, s: State<J>, a: Event, t: State<J>, b: Event, u: State<J>)
    requires Enabled(s, a) && Apply(spawn, s, a) == t && Enabled(t, b) && Apply(spawn, t, b) == u
    ensures Reaches(spawn, s, [a, b], u)
  {
    hide Enabled, Apply;
    assert [a, b][1..] == [b] && [b][1..] == [];
    assert Reaches(spawn, u, [], u);
    assert Reaches(spawn, t, [b], u);
  }
}
