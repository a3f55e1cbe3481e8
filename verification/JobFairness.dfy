/** Fair runs come to an end: if every worker gets its turn again and again and steals do not fail for ever for
    nothing, all workers leave after finitely many steps of a finite tree of jobs. */
module JobFairness {
  import opened JobQueues
  import opened JobTrees
  import opened JobRuns

  type Schedule = nat -> Event

  /** The state after `i` turns; a turn in which the event is not possible passes without effect. */
  function StateAt<J>(spawn: J -> seq<J>, s: State<J>, events: Schedule, i: nat): State<J> {
    if i == 0 then s
    else
      var before := StateAt(spawn, s, events, i - 1);
      if Enabled(before, events(i - 1)) then Apply(spawn, before, events(i - 1)) else before
  }

  /** The events that took place. */
  function Performed<J>(spawn: J -> seq<J>, s: State<J>, events: Schedule, i: nat): seq<Event> {
    if i == 0 then []
    else
      var rest := Performed(spawn, s, events, i - 1);
      if Enabled(StateAt(spawn, s, events, i - 1), events(i - 1)) then rest + [events(i - 1)] else rest
  }

  predicate Gone<J>(worker: Worker<J>) {
    worker.phase.Exited? || worker.phase.Crashed?
  }

  function GoneCount<J>(workers: seq<Worker<J>>): nat {
    if workers == [] then 0 else (if Gone(workers[0]) then 1 else 0) + GoneCount(workers[1..])
  }

  predicate NothingToTake<J>(s: State<J>) {
    s.injector == [] && forall v | 0 <= v < |s.workers| :: s.workers[v].local == []
  }

  /** Turn `j` is one of `w` in which it does something, unless it has left or crashed. */
  ghost predicate ActsAt<J>(spawn: J -> seq<J>, s: State<J>, events: Schedule, j: nat, w: nat) {
    var t := StateAt(spawn, s, events, j);
    events(j).w == w && (Enabled(t, events(j)) || (w < |t.workers| && Gone(t.workers[w])))
  }

  ghost predicate ActsAfter<J>(spawn: J -> seq<J>, s: State<J>, events: Schedule, i: nat, w: nat) {
    exists j :: i <= j && ActsAt(spawn, s, events, j, w)
  }

  /** Every worker gets its turn again and again. */
  ghost predicate Fair<J>(spawn: J -> seq<J>, s: State<J>, events: Schedule) {
    forall w: nat, i: nat | w < |s.workers| :: ActsAfter(spawn, s, events, i, w)
  }

  /** From turn `k` on a steal fails only if there is nothing to steal; before, contention may make it fail. */
  ghost predicate StealsSucceed<J>(spawn: J -> seq<J>, s: State<J>, events: Schedule, k: nat) {
    forall j: nat | j >= k :: events(j).Miss? ==> NothingToTake(StateAt(spawn, s, events, j))
  }

  lemma {:induction false} PerformedReaches<J>(spawn: J -> seq<J>, s: State<J>, events: Schedule, i: nat)
    ensures Reaches(spawn, s, Performed(spawn, s, events, i), StateAt(spawn, s, events, i))
    decreases i
  {
    hide Enabled, Apply;
    if i > 0 {
      PerformedReaches(spawn, s, events, i - 1);
      var t := StateAt(spawn, s, events, i - 1);
      if Enabled(t, events(i - 1)) {
        LastStep(spawn, t, events(i - 1));
        ReachesThen(spawn, s, Performed(spawn, s, events, i - 1), t, [events(i - 1)], Apply(spawn, t, events(i - 1)));
      }
    }
  }

  lemma LastStep<J>(spawn: J -> seq<J>, s: State<J>, e: Event)
    requires Enabled(s, e)
    ensures Reaches(spawn, s, [e], Apply(spawn, s, e))
  {
    assert [e][1..] == [];
    assert Reaches(spawn, Apply(spawn, s, e), [], Apply(spawn, s, e));
  }

  // ---- what only grows ----

  /** Productive steps so far, and workers that have left. */
  function Advanced<J>(spawn: J -> seq<J>, s: State<J>, events: Schedule, i: nat): nat {
    ProductiveCount(Performed(spawn, s, events, i)) + GoneCount(StateAt(spawn, s, events, i).workers)
  }

  lemma {:induction false} GoneReplaced<J>(workers: seq<Worker<J>>, w: nat, now: Worker<J>)
    requires w < |workers|
    ensures GoneCount(workers[w := now]) + (if Gone(workers[w]) then 1 else 0)
         == GoneCount(workers) + if Gone(now) then 1 else 0
    decreases |workers|
  {
    if w > 0 {
      assert workers[w := now][1..] == workers[1..][w - 1 := now];
      GoneReplaced(workers[1..], w - 1, now);
    } else {
      assert workers[w := now][1..] == workers[1..];
    }
  }

  /** What a step does to the number of workers that have left. */
  lemma StepGone<J>(spawn: J -> seq<J>, s: State<J>, e: Event)
    requires Enabled(s, e)
    ensures var t := Apply(spawn, s, e);
      GoneCount(t.workers) == GoneCount(s.workers) + if e.Panic? || (e.Check? && s.inFlight == 0) then 1 else 0
  {
    hide GoneCount;
    match e
    case StealPeer(w, peer, extra) =>
      var left := s.workers[peer].(local := s.workers[peer].local[extra + 1..]);
      var now := TakeUp(spawn, s.workers[peer].local[..extra + 1]);
      GoneReplaced(s.workers, peer, left);
      GoneReplaced(s.workers[peer := left], w, now);
    case _ => GoneReplaced(s.workers, e.w, Apply(spawn, s, e).workers[e.w]);
  }

  /** A step that does not get on with anything. */
  predicate Waiting<J>(s: State<J>, e: Event) {
    e.Miss? || (e.Check? && s.inFlight != 0)
  }

  lemma AdvancedStep<J>(spawn: J -> seq<J>, s: State<J>, events: Schedule, i: nat)
    ensures var t := StateAt(spawn, s, events, i);
      Advanced(spawn, s, events, i + 1) == Advanced(spawn, s, events, i)
        + if Enabled(t, events(i)) && !Waiting(t, events(i)) then 1 else 0
  {
    var t, e := StateAt(spawn, s, events, i), events(i);
    if Enabled(t, e) {
      StepGone(spawn, t, e);
      CountLast(Performed(spawn, s, events, i), e);
    }
    hide GoneCount, ProductiveCount, Apply, Enabled;
  }

  lemma {:induction false} CountLast(events: seq<Event>, e: Event)
    ensures ProductiveCount(events + [e]) == ProductiveCount(events) + if Productive(e) then 1 else 0
    decreases |events|
  {
    if events == [] {
      assert events + [e] == [e];
      assert [e][1..] == [];
    } else {
      assert (events + [e])[1..] == events[1..] + [e];
      CountLast(events[1..], e);
    }
  }

  lemma {:induction false} GoneBounded<J>(workers: seq<Worker<J>>)
    ensures GoneCount(workers) <= |workers|
    decreases |workers|
  {
    if workers != [] { GoneBounded(workers[1..]); }
  }

  lemma {:induction false} SameWorkers<J>(spawn: J -> seq<J>, s: State<J>, events: Schedule, i: nat)
    ensures |StateAt(spawn, s, events, i).workers| == |s.workers|
    decreases i
  {
    hide Enabled, Apply;
    if i > 0 {
      SameWorkers(spawn, s, events, i - 1);
      var t := StateAt(spawn, s, events, i - 1);
      if Enabled(t, events(i - 1)) { StepWorkers(spawn, t, events(i - 1)); }
    }
  }

  lemma StepWorkers<J>(spawn: J -> seq<J>, s: State<J>, e: Event)
    requires Enabled(s, e)
    ensures |Apply(spawn, s, e).workers| == |s.workers|
  {
  }

  lemma AdvancedBounded<J>(spawn: J -> seq<J>, jobs: seq<J>, workers: nat, events: Schedule, i: nat, n: nat)
    requires AllGrounded(spawn, jobs, n)
    ensures Advanced(spawn, Start(jobs, workers), events, i) <= 4 * TreeSize(spawn, jobs, n) + workers
  {
    var s := Start(jobs, workers);
    PerformedReaches(spawn, s, events, i);
    BoundedWork(spawn, jobs, workers, Performed(spawn, s, events, i), StateAt(spawn, s, events, i), n);
    SameWorkers(spawn, s, events, i);
    GoneBounded(StateAt(spawn, s, events, i).workers);
    hide GoneCount, ProductiveCount, StateAt, Performed, AllGrounded, TreeSize;
  }

  lemma {:induction false} AdvancedGrows<J>(spawn: J -> seq<J>, s: State<J>, events: Schedule, i: nat, j: nat)
    requires i <= j
    ensures Advanced(spawn, s, events, i) <= Advanced(spawn, s, events, j)
    decreases j
  {
    hide *;
    if i < j {
      AdvancedStep(spawn, s, events, j - 1);
      AdvancedGrows(spawn, s, events, i, j - 1);
    }
  }

  /** From some turn on nothing gets on any more. */
  lemma {:induction false} Settles<J>(spawn: J -> seq<J>, s: State<J>, events: Schedule, i: nat, bound: nat) returns (k: nat)
    requires forall j: nat :: Advanced(spawn, s, events, j) <= bound
    ensures k >= i && forall j: nat | j >= k :: Advanced(spawn, s, events, j) == Advanced(spawn, s, events, k)
    decreases bound - Advanced(spawn, s, events, i)
  {
    hide Advanced;
    if j: nat :| j >= i && Advanced(spawn, s, events, j) > Advanced(spawn, s, events, i) {
      k := Settles(spawn, s, events, j, bound);
    } else {
      k := i;
      forall j: nat | j >= k ensures Advanced(spawn, s, events, j) == Advanced(spawn, s, events, k) {
        AdvancedGrows(spawn, s, events, k, j);
      }
    }
  }

  // ---- when nothing gets on any more ----

  /** Apart from looking and checking, workers are as they were. */
  ghost predicate Still<J>(s: State<J>, t: State<J>) {
    && t.injector == s.injector && t.inFlight == s.inFlight && |t.workers| == |s.workers|
    && forall w | 0 <= w < |s.workers| ::
         && t.workers[w].local == s.workers[w].local
         && (t.workers[w].phase == s.workers[w].phase ||
             (!Gone(s.workers[w]) && !Busy(s.workers[w]) && (t.workers[w].phase.Looking? || t.workers[w].phase.Checking?)))
  }

  lemma StillMore<J>(spawn: J -> seq<J>, s: State<J>, t: State<J>, e: Event)
    requires Still(s, t) && Enabled(t, e) && Waiting(t, e)
    ensures Still(s, Apply(spawn, t, e))
  {
  }

  lemma StillSame<J>(s: State<J>)
    ensures Still(s, s)
  {
  }

  /** Nothing gets on from turn `k`. */
  ghost predicate Stable<J>(spawn: J -> seq<J>, s: State<J>, events: Schedule, k: nat) {
    forall j: nat | j >= k :: Advanced(spawn, s, events, j) == Advanced(spawn, s, events, k)
  }

  lemma NextState<J>(spawn: J -> seq<J>, s: State<J>, events: Schedule, i: nat)
    ensures var t := StateAt(spawn, s, events, i);
      StateAt(spawn, s, events, i + 1) == if Enabled(t, events(i)) then Apply(spawn, t, events(i)) else t
  {
    hide Enabled, Apply;
  }

  lemma {:induction false} StaysStill<J>(spawn: J -> seq<J>, s: State<J>, events: Schedule, k: nat, i: nat)
    requires k <= i && Stable(spawn, s, events, k)
    ensures Still(StateAt(spawn, s, events, k), StateAt(spawn, s, events, i))
    decreases i
  {
    hide *;
    if k < i {
      StaysStill(spawn, s, events, k, i - 1);
      WaitsAt(spawn, s, events, k, i - 1);
      NextState(spawn, s, events, i - 1);
      var t := StateAt(spawn, s, events, i - 1);
      if Enabled(t, events(i - 1)) { StillMore(spawn, StateAt(spawn, s, events, k), t, events(i - 1)); }
    } else {
      StillSame(StateAt(spawn, s, events, k));
    }
  }

  lemma WaitsAt<J>(spawn: J -> seq<J>, s: State<J>, events: Schedule, k: nat, i: nat)
    requires k <= i && Stable(spawn, s, events, k)
    ensures Enabled(StateAt(spawn, s, events, i), events(i)) ==> Waiting(StateAt(spawn, s, events, i), events(i))
  {
    AdvancedStep(spawn, s, events, i);
    assert Advanced(spawn, s, events, i + 1) == Advanced(spawn, s, events, k);
    hide Advanced, Enabled, Waiting;
  }

  /** A turn in which `w` does something. */
  ghost predicate Acts<J>(spawn: J -> seq<J>, s: State<J>, events: Schedule, m: nat, w: nat) {
    events(m).w == w && Enabled(StateAt(spawn, s, events, m), events(m))
  }

  lemma NextTurn<J>(spawn: J -> seq<J>, s: State<J>, events: Schedule, k: nat, i: nat, w: nat) returns (j: nat)
    requires Fair(spawn, s, events) && Stable(spawn, s, events, k) && k <= i && w < |s.workers|
    requires w < |StateAt(spawn, s, events, k).workers| && !Gone(StateAt(spawn, s, events, k).workers[w])
    ensures j >= i && Acts(spawn, s, events, j, w)
  {
    assert ActsAfter(spawn, s, events, i, w);
    j :| i <= j && ActsAt(spawn, s, events, j, w);
    StaysStill(spawn, s, events, k, j);
    hide Stable, Fair, Enabled, StateAt;
  }

  /** If `w` never does anything in the phase it is in, it stays in it. */
  lemma {:induction false} StaysPut<J>(spawn: J -> seq<J>, s: State<J>, events: Schedule, k: nat, a: nat, j: nat, w: nat,
                                       phase: Phase<J>)
    requires k <= a <= j && Stable(spawn, s, events, k) && w < |s.workers|
    requires |StateAt(spawn, s, events, a).workers| == |s.workers| && StateAt(spawn, s, events, a).workers[w].phase == phase
    requires NeverActs(spawn, s, events, k, w, phase)
    ensures |StateAt(spawn, s, events, j).workers| == |s.workers| && StateAt(spawn, s, events, j).workers[w].phase == phase
    decreases j
  {
    hide *;
    if a < j {
      StaysPut(spawn, s, events, k, a, j - 1, w, phase);
      SameWorkers(spawn, s, events, j);
      WaitsAt(spawn, s, events, k, j - 1);
      NextState(spawn, s, events, j - 1);
      var t := StateAt(spawn, s, events, j - 1);
      if Enabled(t, events(j - 1)) {
        NotHere(spawn, s, events, k, j - 1, w, phase);
        OthersOnly(spawn, t, events(j - 1), w);
      }
    }
  }

  ghost predicate NeverActs<J>(spawn: J -> seq<J>, s: State<J>, events: Schedule, k: nat, w: nat, phase: Phase<J>) {
    forall m: nat | m >= k && Acts(spawn, s, events, m, w) ::
      w < |StateAt(spawn, s, events, m).workers| && StateAt(spawn, s, events, m).workers[w].phase != phase
  }

  lemma NotHere<J>(spawn: J -> seq<J>, s: State<J>, events: Schedule, k: nat, m: nat, w: nat, phase: Phase<J>)
    requires NeverActs(spawn, s, events, k, w, phase) && m >= k && Enabled(StateAt(spawn, s, events, m), events(m))
    requires w < |StateAt(spawn, s, events, m).workers| && StateAt(spawn, s, events, m).workers[w].phase == phase
    ensures events(m).w != w
  {
    hide StateAt, Enabled;
    assert events(m).w == w ==> Acts(spawn, s, events, m, w);
  }

  lemma OthersOnly<J>(spawn: J -> seq<J>, t: State<J>, e: Event, w: nat)
    requires Enabled(t, e) && Waiting(t, e) && e.w != w && w < |t.workers|
    ensures w < |Apply(spawn, t, e).workers| && Apply(spawn, t, e).workers[w] == t.workers[w]
  {
  }

  /** What a worker that is waiting can be doing. */
  lemma WaitingPhase<J>(spawn: J -> seq<J>, t: State<J>, e: Event)
    requires Enabled(t, e) && Waiting(t, e)
    ensures e.w < |t.workers|
    ensures t.workers[e.w].phase.Looking? ==> e.Miss? && Apply(spawn, t, e).workers[e.w].phase == Checking
    ensures t.workers[e.w].phase.Checking? ==> t.inFlight != 0 && Apply(spawn, t, e).workers[e.w].phase == Looking
    ensures t.workers[e.w].phase.Looking? || t.workers[e.w].phase.Checking?
  {
  }

  lemma ActsWaiting<J>(spawn: J -> seq<J>, s: State<J>, events: Schedule, k: nat, m: nat, w: nat)
    requires k <= m && Stable(spawn, s, events, k) && Acts(spawn, s, events, m, w)
    ensures var t := StateAt(spawn, s, events, m);
      Enabled(t, events(m)) && Waiting(t, events(m)) && events(m).w == w && Still(StateAt(spawn, s, events, k), t)
      && StateAt(spawn, s, events, m + 1) == Apply(spawn, t, events(m))
  {
    WaitsAt(spawn, s, events, k, m);
    StaysStill(spawn, s, events, k, m);
    NextState(spawn, s, events, m);
    hide Stable, StateAt, Enabled, Waiting, Still, Apply;
  }

  lemma NotBusy<J>(spawn: J -> seq<J>, s: State<J>, events: Schedule, k: nat, w: nat)
    requires Fair(spawn, s, events) && Stable(spawn, s, events, k) && w < |s.workers|
    ensures var t := StateAt(spawn, s, events, k); w < |t.workers| && !Busy(t.workers[w])
  {
    var t := StateAt(spawn, s, events, k);
    SameWorkers(spawn, s, events, k);
    if Busy(t.workers[w]) {
      hide Stable, Fair, StateAt, Acts, Enabled, Waiting, Apply;
      var i := NextTurn(spawn, s, events, k, k, w);
      ActsWaiting(spawn, s, events, k, i, w);
      WaitingPhase(spawn, StateAt(spawn, s, events, i), events(i));
    }
  }

  lemma SomethingToTake<J>(s: State<J>)
    requires Invariant(s) && s.inFlight != 0 && forall w | 0 <= w < |s.workers| :: !Busy(s.workers[w])
    requires |s.workers| > 0
    ensures !NothingToTake(s)
  {
    var e := CanTake(s, 0);
  }

  /** Once nothing gets on any more, all workers have left. */
  lemma EverybodyLeft<J>(spawn: J -> seq<J>, s: State<J>, events: Schedule, k: nat, w: nat)
    requires Fair(spawn, s, events) && StealsSucceed(spawn, s, events, k) && Stable(spawn, s, events, k) && w < |s.workers|
    requires Invariant(StateAt(spawn, s, events, k))
    ensures var t := StateAt(spawn, s, events, k); w < |t.workers| && Gone(t.workers[w])
  {
    hide *;
    var t := StateAt(spawn, s, events, k);
    SameWorkers(spawn, s, events, k);
    forall v: nat | v < |s.workers| ensures v < |t.workers| && !Busy(t.workers[v]) { NotBusy(spawn, s, events, k, v); }
    if t.inFlight != 0 { SomethingToTake(t); }
    var phase := if t.inFlight == 0 then Checking else Looking;
    NeverInPhase(spawn, s, events, k, w, phase);
    NobodyStays(spawn, s, events, k, w, phase);
  }

  lemma NobodyStays<J>(spawn: J -> seq<J>, s: State<J>, events: Schedule, k: nat, w: nat, phase: Phase<J>)
    requires Fair(spawn, s, events) && Stable(spawn, s, events, k) && w < |s.workers|
    requires NeverActs(spawn, s, events, k, w, phase) && (phase.Checking? || phase.Looking?)
    ensures var t := StateAt(spawn, s, events, k); w < |t.workers| && Gone(t.workers[w])
  {
    hide *;
    SameWorkers(spawn, s, events, k);
    if !Gone(StateAt(spawn, s, events, k).workers[w]) {
      var i := NextTurn(spawn, s, events, k, k, w);
      OtherPhase(spawn, s, events, k, i, w, phase);
      var j := NextTurn(spawn, s, events, k, i + 1, w);
      StaysPut(spawn, s, events, k, i + 1, j, w, phase);
      ActsNotIn(spawn, s, events, k, j, w, phase);
    }
  }

  /** What acts in the one phase is in the other one afterwards. */
  lemma OtherPhase<J>(spawn: J -> seq<J>, s: State<J>, events: Schedule, k: nat, i: nat, w: nat, phase: Phase<J>)
    requires k <= i && Stable(spawn, s, events, k) && w < |s.workers| && Acts(spawn, s, events, i, w)
    requires NeverActs(spawn, s, events, k, w, phase) && (phase.Checking? || phase.Looking?)
    ensures var u := StateAt(spawn, s, events, i + 1); |u.workers| == |s.workers| && u.workers[w].phase == phase
  {
    hide *;
    ActsNotIn(spawn, s, events, k, i, w, phase);
    ActsWaiting(spawn, s, events, k, i, w);
    WaitingPhase(spawn, StateAt(spawn, s, events, i), events(i));
    SameWorkers(spawn, s, events, i + 1);
  }

  lemma ActsNotIn<J>(spawn: J -> seq<J>, s: State<J>, events: Schedule, k: nat, m: nat, w: nat, phase: Phase<J>)
    requires NeverActs(spawn, s, events, k, w, phase) && m >= k && Acts(spawn, s, events, m, w)
    ensures w < |StateAt(spawn, s, events, m).workers| && StateAt(spawn, s, events, m).workers[w].phase != phase
  {
    hide StateAt, Acts;
  }

  /** With nothing in flight nobody stays who looks at the counter; with something in flight there is something to
      take for whoever looks for it. */
  lemma NeverInPhase<J>(spawn: J -> seq<J>, s: State<J>, events: Schedule, k: nat, w: nat, phase: Phase<J>)
    requires StealsSucceed(spawn, s, events, k) && Stable(spawn, s, events, k)
    requires var t := StateAt(spawn, s, events, k);
      if t.inFlight == 0 then phase == Checking else phase == Looking && !NothingToTake(t)
    ensures NeverActs(spawn, s, events, k, w, phase)
  {
    hide Stable, StateAt, Acts, Enabled, Waiting, Apply;
    forall m: nat | m >= k && Acts(spawn, s, events, m, w)
      ensures w < |StateAt(spawn, s, events, m).workers| && StateAt(spawn, s, events, m).workers[w].phase != phase
    {
      ActsWaiting(spawn, s, events, k, m, w);
      WaitingPhase(spawn, StateAt(spawn, s, events, m), events(m));
    }
  }

  /** Every fair run over a finite tree of jobs ends: after finitely many turns every worker has left or crashed. */
  lemma FairRunsEnd<J>(spawn: J -> seq<J>, jobs: seq<J>, workers: nat, events: Schedule, k: nat, n: nat) returns (end: nat)
    requires AllGrounded(spawn, jobs, n)
    requires Fair(spawn, Start(jobs, workers), events) && StealsSucceed(spawn, Start(jobs, workers), events, k)
    ensures var t := StateAt(spawn, Start(jobs, workers), events, end);
      |t.workers| == workers && forall w | 0 <= w < workers :: Gone(t.workers[w])
  {
    var s := Start(jobs, workers);
    forall j: nat ensures Advanced(spawn, s, events, j) <= 4 * TreeSize(spawn, jobs, n) + workers {
      AdvancedBounded(spawn, jobs, workers, events, j, n);
    }
    hide Advanced, StateAt, Fair, AllGrounded, Invariant;
    end := Settles(spawn, s, events, k, 4 * TreeSize(spawn, jobs, n) + workers);
    PerformedReaches(spawn, s, events, end);
    StartInvariant(jobs, workers);
    RunInvariant(spawn, s, Performed(spawn, s, events, end), StateAt(spawn, s, events, end));
    SameWorkers(spawn, s, events, end);
    forall w | 0 <= w < workers ensures Gone(StateAt(spawn, s, events, end).workers[w]) {
      EverybodyLeft(spawn, s, events, end, w);
    }
  }
}
