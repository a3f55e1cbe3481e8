/** The resolution loop: passes over a queue of units until one makes no progress. What handling a unit does
    to the state is a parameter here; `Handlings` puts the resolver's own handlers in. */
module ResolutionLoops {
  import opened Declarations
  import opened Lookups

  datatype Unit = DefinitionUnit(id: nat) | ReferenceUnit(id: nat) | AncestorUnit(declaration: DeclId)

  /** What handling a unit comes to. An ancestor unit is found if its chain comes out finished. */
  datatype Effect<S> = Effect(
    state: S,
    created: seq<DeclId>,        // declarations queued on the way
    outcome: Resolution,
    needsLinearization: bool)    // the definition made a new namespace

  /** A way to handle units, with what the loop has to know about it: `finished` are the declarations with a
      complete or cyclic chain, `universe` all that can have a chain as long as no further definition or reference
      is resolved; `lost` bounds how often a finished chain can still be thrown away; `holds` is kept by every unit
      that is known. */
  datatype Handling<!S> = Handling(
    handle: (Unit, S) -> Effect<S>,
    finished: S -> set<DeclId>,
    universe: S -> set<DeclId>,
    lost: S -> nat,
    holds: S -> bool,
    known: Unit -> bool)

  /** Whether a definition or reference leaves the queue for good. */
  predicate UsedUp(u: Unit, outcome: Resolution) {
    match u
    case DefinitionUnit(_) => outcome.Found? || outcome == NotFound(None)
    case ReferenceUnit(_) => outcome.Found?
    case AncestorUnit(_) => false
  }

  /** Only a unit that is used up can make room for new declarations or for losses; any other one pays for chains it
      throws away, or else finished chains stay finished and only unfinished declarations are queued. */
  ghost predicate Legal<S(!new)>(h: Handling<S>) {
    && (forall s | h.holds(s) :: h.finished(s) <= h.universe(s))
    && (forall d :: h.known(AncestorUnit(d)))
    && (forall u, s | h.holds(s) && h.known(u) :: LegalEffect(h, u, s, h.handle(u, s)))
  }

  ghost predicate LegalEffect<S>(h: Handling<S>, u: Unit, s: S, e: Effect<S>) {
    && h.holds(e.state)
    && (u.AncestorUnit? ==> (e.outcome.Found? <==> u.declaration in h.finished(e.state)))
    && (!UsedUp(u, e.outcome) ==> Idle(h, u, s, e))
  }

  /** What a unit does that is not used up. */
  ghost predicate Idle<S>(h: Handling<S>, u: Unit, s: S, e: Effect<S>) {
    h.lost(e.state) < h.lost(s) || (h.lost(e.state) == h.lost(s) && Settling(h, u, s, e))
  }

  ghost predicate Settling<S>(h: Handling<S>, u: Unit, s: S, e: Effect<S>) {
    && h.universe(e.state) == h.universe(s) && h.finished(s) <= h.finished(e.state)
    && (forall i | 0 <= i < |e.created| :: e.created[i] !in h.finished(s))
    && (e.outcome.again.Some? && !u.AncestorUnit? ==> e.outcome.again.value !in h.finished(s))
  }

  // ---- what a unit leaves in the queue ----

  function AncestorUnits(ids: seq<DeclId>): seq<Unit> {
    seq(|ids|, i requires 0 <= i < |ids| => AncestorUnit(ids[i]))
  }

  function AgainUnits(again: Option<DeclId>): seq<Unit> {
    match again
    case None => []
    case Some(d) => [AncestorUnit(d)]
  }

  /** The units pushed while and after handling `u`. */
  function Pushed<S>(u: Unit, e: Effect<S>): seq<Unit> {
    AncestorUnits(e.created) + PushedBack(u, e)
  }

  /** The part of `Pushed` behind the declarations queued on the way. */
  function PushedBack<S>(u: Unit, e: Effect<S>): seq<Unit> {
    match u
    case AncestorUnit(d) => if e.outcome.Found? then [] else [u]
    case DefinitionUnit(_) =>
      if e.outcome == NotFound(None) then []
      else if e.outcome.Found? then
        if e.outcome.again.Some? then AgainUnits(e.outcome.again)
        else if e.needsLinearization then [AncestorUnit(e.outcome.id)] else []
      else [u] + AgainUnits(e.outcome.again)
    case ReferenceUnit(_) =>
      if e.outcome.Found? then AgainUnits(e.outcome.again) else [u] + AgainUnits(e.outcome.again)
  }

  /** The references resolved once `u` has been handled. */
  function Logged(log: seq<nat>, u: Unit, outcome: Resolution): seq<nat> {
    if ResolvesReference(u, outcome) then log + [u.id] else log
  }

  function LoggedOnce(u: Unit, outcome: Resolution): multiset<nat> {
    if ResolvesReference(u, outcome) then multiset{u.id} else multiset{}
  }

  predicate ResolvesReference(u: Unit, outcome: Resolution) {
    u.ReferenceUnit? && outcome.Found?
  }

  /** A namespace that a definition has made is queued exactly if nothing else was asked for on the way: an owner
      that was found through an unfinished chain takes its place in the queue. */
  lemma NewNamespaceQueued<S>(u: Unit, e: Effect<S>)
    requires u.DefinitionUnit? && e.outcome.Found? && e.needsLinearization
    ensures AncestorUnit(e.outcome.id) in PushedBack(u, e) <==> e.outcome.again in {None, Some(e.outcome.id)}
  {
  }

  /** What stays in the queue and what is added to it: a definition or reference stays exactly if it is not used up, an
      ancestor unit exactly if its chain is not finished; whatever was made or asked for on the way is queued, and so is the
      namespace a definition has made. Nothing else is. */
  lemma PushedExactly<S>(u: Unit, e: Effect<S>, v: Unit)
    ensures v in Pushed(u, e) <==>
      || (v.AncestorUnit? && v.declaration in e.created)
      || (v == u && !UsedUp(u, e.outcome) && !(u.AncestorUnit? && e.outcome.Found?))
      || (!u.AncestorUnit? && v.AncestorUnit? && e.outcome.again == Some(v.declaration))
      || (u.DefinitionUnit? && e.outcome.Found? && e.outcome.again == None && e.needsLinearization &&
            v == AncestorUnit(e.outcome.id))
  {
    CreatedUnits(e.created, v);
    hide AncestorUnits;
  }

  lemma CreatedUnits(ids: seq<DeclId>, v: Unit)
    ensures v in AncestorUnits(ids) <==> v.AncestorUnit? && v.declaration in ids
  {
    if v.AncestorUnit? && v.declaration in ids {
      var i :| 0 <= i < |ids| && ids[i] == v.declaration;
      assert AncestorUnits(ids)[i] == v;
    }
  }

  // ---- what is counted ----

  /** Definition and reference units. */
  function Names(queue: seq<Unit>): nat {
    if queue == [] then 0 else Names(queue[..|queue| - 1]) + if queue[|queue| - 1].AncestorUnit? then 0 else 1
  }

  /** Ancestor units whose chain is finished already. */
  function Leftovers(queue: seq<Unit>, finished: set<DeclId>): nat {
    if queue == [] then 0
    else
      var last := queue[|queue| - 1];
      Leftovers(queue[..|queue| - 1], finished) + if last.AncestorUnit? && last.declaration in finished then 1 else 0
  }

  function QueuedReferences(queue: seq<Unit>): multiset<nat> {
    if queue == [] then multiset{}
    else
      var last := queue[|queue| - 1];
      QueuedReferences(queue[..|queue| - 1]) + if last.ReferenceUnit? then multiset{last.id} else multiset{}
  }

  lemma {:induction false} CountsAppend(a: seq<Unit>, b: seq<Unit>, finished: set<DeclId>)
    ensures Names(a + b) == Names(a) + Names(b)
    ensures Leftovers(a + b, finished) == Leftovers(a, finished) + Leftovers(b, finished)
    ensures QueuedReferences(a + b) == QueuedReferences(a) + QueuedReferences(b)
    decreases |b|
  {
    if b == [] {
      assert a + b == a;
    } else {
      assert (a + b)[..|a + b| - 1] == a + b[..|b| - 1];
      CountsAppend(a, b[..|b| - 1], finished);
    }
  }

  lemma {:induction false} AncestorCounts(ids: seq<DeclId>, finished: set<DeclId>)
    ensures Names(AncestorUnits(ids)) == 0 && QueuedReferences(AncestorUnits(ids)) == multiset{}
    ensures (forall i | 0 <= i < |ids| :: ids[i] !in finished) ==> Leftovers(AncestorUnits(ids), finished) == 0
    decreases |ids|
  {
    if ids != [] {
      var front := ids[..|ids| - 1];
      assert AncestorUnits(ids)[..|ids| - 1] == AncestorUnits(front);
      AncestorCounts(front, finished);
    }
  }

  lemma OneCounts(u: Unit, finished: set<DeclId>)
    ensures Names([u]) == (if u.AncestorUnit? then 0 else 1)
    ensures Leftovers([u], finished) == (if u.AncestorUnit? && u.declaration in finished then 1 else 0)
    ensures QueuedReferences([u]) == if u.ReferenceUnit? then multiset{u.id} else multiset{}
  {
    assert [u][..0] == [];
  }

  lemma AgainCounts(again: Option<DeclId>, finished: set<DeclId>)
    ensures Names(AgainUnits(again)) == 0 && QueuedReferences(AgainUnits(again)) == multiset{}
    ensures (again.Some? ==> again.value !in finished) ==> Leftovers(AgainUnits(again), finished) == 0
  {
    if again.Some? { OneCounts(AncestorUnit(again.value), finished); }
  }

  lemma PushedBackCounts<S(!new)>(h: Handling<S>, u: Unit, s: S, e: Effect<S>)
    ensures Names(PushedBack(u, e)) == (if UsedUp(u, e.outcome) || u.AncestorUnit? then 0 else 1)
    ensures QueuedReferences(PushedBack(u, e)) + LoggedOnce(u, e.outcome) == QueuedReferences([u])
    ensures LegalEffect(h, u, s, e) && !UsedUp(u, e.outcome) && Settling(h, u, s, e) && h.finished(e.state) == h.finished(s) ==>
      Leftovers(PushedBack(u, e), h.finished(s)) == 0
  {
    OneCounts(u, h.finished(s));
    AgainCounts(e.outcome.again, h.finished(s));
    CountsAppend([u], AgainUnits(e.outcome.again), h.finished(s));
    if e.outcome.Found? { OneCounts(AncestorUnit(e.outcome.id), h.finished(s)); }
    hide Names, QueuedReferences, Leftovers, AgainUnits, Pushed;
  }

  lemma PushedCounts<S(!new)>(h: Handling<S>, u: Unit, s: S, e: Effect<S>)
    ensures Names(Pushed(u, e)) == (if UsedUp(u, e.outcome) || u.AncestorUnit? then 0 else 1)
    ensures QueuedReferences(Pushed(u, e)) + LoggedOnce(u, e.outcome) == QueuedReferences([u])
    ensures LegalEffect(h, u, s, e) && !UsedUp(u, e.outcome) && Settling(h, u, s, e) && h.finished(e.state) == h.finished(s) ==>
      Leftovers(Pushed(u, e), h.finished(s)) == 0
  {
    AncestorCounts(e.created, h.finished(s));
    PushedBackCounts(h, u, s, e);
    CountsAppend(AncestorUnits(e.created), PushedBack(u, e), h.finished(s));
    hide Names, QueuedReferences, Leftovers, AgainUnits, AncestorUnits, PushedBack, LegalEffect;
  }

  // ---- a pass ----

  /** A pass: what is left of the queue it started with, what has been pushed since, the references resolved. */
  datatype Pass<S> = Pass(left: seq<Unit>, pushed: seq<Unit>, state: S, recorded: seq<nat>, progress: bool)

  function Advance<S>(h: Handling<S>, p: Pass<S>): Pass<S>
    requires p.left != []
  {
    var u := p.left[0];
    var e := h.handle(u, p.state);
    Pass(p.left[1..], p.pushed + Pushed(u, e), e.state,
         Logged(p.recorded, u, e.outcome), p.progress || e.outcome.Found?)
  }

  function RunPass<S>(h: Handling<S>, p: Pass<S>): Pass<S>
    decreases |p.left|
  {
    if p.left == [] then p else RunPass(h, Advance(h, p))
  }

  ghost predicate Fits<S>(h: Handling<S>, queue: seq<Unit>, s: S) {
    h.holds(s) && forall u | u in queue :: h.known(u)
  }

  ghost predicate PassFits<S>(h: Handling<S>, p: Pass<S>) {
    Fits(h, p.left + p.pushed, p.state)
  }

  /** What one step of a pass does: it uses up a name, or something that could be lost, or finishes a chain, or only
      takes leftovers away. */
  ghost predicate Steps<S>(h: Handling<S>, p: Pass<S>, q: Pass<S>) {
    && Names(q.left + q.pushed) <= Names(p.left + p.pushed)
    && (Names(q.left + q.pushed) == Names(p.left + p.pushed) ==> h.lost(q.state) <= h.lost(p.state))
    && (Names(q.left + q.pushed) == Names(p.left + p.pushed) && h.lost(q.state) == h.lost(p.state) ==>
      && h.universe(q.state) == h.universe(p.state) && h.finished(p.state) <= h.finished(q.state)
      && (h.finished(q.state) == h.finished(p.state) ==>
            && Leftovers(q.pushed, h.finished(q.state)) == Leftovers(p.pushed, h.finished(p.state))
            && Leftovers(q.left, h.finished(q.state)) <= Leftovers(p.left, h.finished(p.state))
            && (q.progress && !p.progress ==>
                  Leftovers(q.left, h.finished(q.state)) < Leftovers(p.left, h.finished(p.state)))))
  }

  lemma AdvanceNames<S(!new)>(h: Handling<S>, p: Pass<S>)
    requires p.left != []
    ensures var q := Advance(h, p);
      Names(q.left + q.pushed) + (if UsedUp(p.left[0], h.handle(p.left[0], p.state).outcome) then 1 else 0)
      == Names(p.left + p.pushed)
  {
    var u := p.left[0];
    var e := h.handle(u, p.state);
    hide Names, QueuedReferences, Leftovers, Pushed, UsedUp, LegalEffect;
    PushedCounts(h, u, p.state, e);
    OneCounts(u, {});
    CountsAppend(p.pushed, Pushed(u, e), {});
    CountsAppend([u], p.left[1..], {});
    assert p.left == [u] + p.left[1..];
    CountsAppend(p.left, p.pushed, {});
    CountsAppend(p.left[1..], p.pushed + Pushed(u, e), {});
    AncestorUnitsStay(u, e.outcome);
  }

  lemma AncestorUnitsStay(u: Unit, outcome: Resolution)
    ensures u.AncestorUnit? ==> !UsedUp(u, outcome)
  {
  }

  lemma AdvanceLeftovers<S(!new)>(h: Handling<S>, u: Unit, rest: seq<Unit>, pushed: seq<Unit>, s: S, e: Effect<S>)
    requires LegalEffect(h, u, s, e) && !UsedUp(u, e.outcome) && Settling(h, u, s, e) && h.finished(e.state) == h.finished(s)
    ensures Leftovers(pushed + Pushed(u, e), h.finished(s)) == Leftovers(pushed, h.finished(s))
    ensures Leftovers(rest, h.finished(s)) + (if u.AncestorUnit? && e.outcome.Found? then 1 else 0)
         == Leftovers([u] + rest, h.finished(s))
  {
    PushedCounts(h, u, s, e);
    assert u.AncestorUnit? ==> (e.outcome.Found? <==> u.declaration in h.finished(s));
    hide Names, QueuedReferences, Leftovers, Pushed, LegalEffect;
    OneCounts(u, h.finished(s));
    CountsAppend(pushed, Pushed(u, e), h.finished(s));
    CountsAppend([u], rest, h.finished(s));
  }

  /** One unit never adds a definition or reference unit. If it uses none up and throws no chain away, it only lets
      chains finish and queues no unit of a finished chain; progress without a newly finished chain takes such a unit
      away. */
  lemma AdvanceSteps<S(!new)>(h: Handling<S>, p: Pass<S>)
    requires Legal(h) && PassFits(h, p) && p.left != []
    ensures Steps(h, p, Advance(h, p))
  {
    var u, s := p.left[0], p.state;
    assert u in p.left + p.pushed;
    var e := h.handle(u, s);
    assert LegalEffect(h, u, s, e);
    hide Legal, PassFits;
    AdvanceNames(h, p);
    assert p.left == [u] + p.left[1..];
    assert !UsedUp(u, e.outcome) ==> Idle(h, u, s, e);
    if !UsedUp(u, e.outcome) && h.lost(e.state) == h.lost(s) && h.finished(e.state) == h.finished(s) {
      AdvanceLeftovers(h, u, p.left[1..], p.pushed, s, e);
      FoundMeansAncestor(u, e.outcome);
    }
    hide Names, QueuedReferences, Leftovers, Pushed, LegalEffect, UsedUp;
  }

  lemma FoundMeansAncestor(u: Unit, outcome: Resolution)
    ensures outcome.Found? && !UsedUp(u, outcome) ==> u.AncestorUnit?
  {
  }

  lemma AdvanceFits<S(!new)>(h: Handling<S>, p: Pass<S>)
    requires Legal(h) && PassFits(h, p) && p.left != []
    ensures PassFits(h, Advance(h, p))
  {
    var u := p.left[0];
    assert u in p.left + p.pushed;
    var e := h.handle(u, p.state);
    assert LegalEffect(h, u, p.state, e);
    forall v | v in p.left[1..] + (p.pushed + Pushed(u, e)) ensures h.known(v) {
      assert v in p.left + p.pushed || v in Pushed(u, e);
      if v in Pushed(u, e) { PushesKnown(u, e, v); }
    }
  }

  lemma PushesKnown<S>(u: Unit, e: Effect<S>, v: Unit)
    requires v in Pushed(u, e)
    ensures v == u || v.AncestorUnit?
  {
  }

  /** Every live reference is either recorded or still queued, each exactly once. */
  function ReferencesIn<S>(p: Pass<S>): multiset<nat> {
    QueuedReferences(p.left + p.pushed) + multiset(p.recorded)
  }

  lemma AdvanceReferences<S(!new)>(h: Handling<S>, u: Unit, rest: seq<Unit>, pushed: seq<Unit>, s: S, e: Effect<S>)
    ensures QueuedReferences(rest + (pushed + Pushed(u, e))) + LoggedOnce(u, e.outcome) == QueuedReferences(([u] + rest) + pushed)
  {
    hide Names, QueuedReferences, Leftovers, Pushed, LegalEffect, UsedUp;
    PushedCounts(h, u, s, e);
    CountsAppend(pushed, Pushed(u, e), {});
    CountsAppend([u], rest, {});
    CountsAppend([u] + rest, pushed, {});
    CountsAppend(rest, pushed + Pushed(u, e), {});
    Moved(QueuedReferences([u]), QueuedReferences(rest), QueuedReferences(pushed), QueuedReferences(Pushed(u, e)),
        LoggedOnce(u, e.outcome));
  }

  lemma Moved<T>(u: multiset<T>, left: multiset<T>, pushed: multiset<T>, back: multiset<T>, one: multiset<T>)
    requires back + one == u
    ensures left + (pushed + back) + one == (u + left) + pushed
  {
  }

  lemma AdvanceKeepsReferences<S(!new)>(h: Handling<S>, p: Pass<S>)
    requires p.left != []
    ensures ReferencesIn(Advance(h, p)) == ReferencesIn(p)
  {
    var u := p.left[0];
    var e := h.handle(u, p.state);
    AdvanceReferences(h, u, p.left[1..], p.pushed, p.state, e);
    assert p.left == [u] + p.left[1..];
    var q := Advance(h, p);
    assert multiset(q.recorded) == LoggedOnce(u, e.outcome) + multiset(p.recorded);
    hide QueuedReferences, Pushed, LoggedOnce;
    Regrouped(QueuedReferences(q.left + q.pushed), LoggedOnce(u, e.outcome), multiset(p.recorded));
  }

  lemma Regrouped<T>(a: multiset<T>, b: multiset<T>, c: multiset<T>)
    ensures a + (b + c) == (a + b) + c
  {
  }

  lemma StepsCompose<S>(h: Handling<S>, p: Pass<S>, q: Pass<S>, r: Pass<S>)
    requires Steps(h, p, q) && Steps(h, q, r)
    ensures Steps(h, p, r)
  {
    hide Names, Leftovers;
  }

  lemma NoStep<S>(h: Handling<S>, p: Pass<S>)
    ensures Steps(h, p, p)
  {
  }

  lemma {:induction false} RunPassSteps<S(!new)>(h: Handling<S>, p: Pass<S>)
    requires Legal(h) && PassFits(h, p)
    ensures Steps(h, p, RunPass(h, p)) && RunPass(h, p).left == [] && PassFits(h, RunPass(h, p))
    ensures ReferencesIn(RunPass(h, p)) == ReferencesIn(p)
    decreases |p.left|
  {
    if p.left == [] {
      NoStep(h, p);
    } else {
      var q := Advance(h, p);
      AdvanceSteps(h, p);
      AdvanceFits(h, p);
      AdvanceKeepsReferences(h, p);
      assert q.left == p.left[1..];
      hide Advance, ReferencesIn, Legal, PassFits, Steps;
      RunPassSteps(h, q);
      StepsCompose(h, p, q, RunPass(h, q));
    }
  }

  lemma Smaller<T>(a: set<T>, b: set<T>, all: set<T>)
    requires a <= b <= all && a != b
    ensures |all - b| < |all - a|
  {
    assert b == a + (b - a);
    var x :| x in b - a;
    var fewer, more := all - b, all - a;
    assert fewer <= more - {x};
    assert more == fewer + (more - fewer);
    assert x in more - fewer;
  }

  /** What is still to be done before no pass can make progress. */
  ghost function Unfinished<S>(h: Handling<S>, s: S): nat {
    |h.universe(s) - h.finished(s)|
  }

  /** A pass that makes progress uses up a definition or reference, or something that could be lost, or finishes a
      chain, or clears the leftovers of finished chains: the four counts shrink lexicographically. */
  lemma ProgressShrinks<S(!new)>(h: Handling<S>, queue: seq<Unit>, s: S, recorded: seq<nat>)
    requires Legal(h) && Fits(h, queue, s)
    ensures var q := RunPass(h, Pass(queue, [], s, recorded, false));
      && q.left == [] && Fits(h, q.pushed, q.state)
      && Names(q.pushed) <= Names(queue)
      && (Names(q.pushed) == Names(queue) ==> h.lost(q.state) <= h.lost(s))
      && (q.progress && Names(q.pushed) == Names(queue) && h.lost(q.state) == h.lost(s) ==>
        && Unfinished(h, q.state) <= Unfinished(h, s)
        && (Unfinished(h, q.state) == Unfinished(h, s) ==>
              Leftovers(q.pushed, h.finished(q.state)) < Leftovers(queue, h.finished(s))))
      && QueuedReferences(q.pushed) + multiset(q.recorded) == QueuedReferences(queue) + multiset(recorded)
  {
    var p := Pass(queue, [], s, recorded, false);
    RunPassSteps(h, p);
    var q := RunPass(h, p);
    assert h.finished(q.state) <= h.universe(q.state);
    assert queue + [] == queue && [] + q.pushed == q.pushed;
    hide RunPass, Legal, Steps;
    WholePass(h, p, q);
  }

  lemma WholePass<S>(h: Handling<S>, p: Pass<S>, q: Pass<S>)
    requires Steps(h, p, q) && p.pushed == [] && q.left == [] && !p.progress
    requires p.left + p.pushed == p.left && q.left + q.pushed == q.pushed
    requires h.finished(q.state) <= h.universe(q.state)
    ensures Names(q.pushed) <= Names(p.left)
    ensures Names(q.pushed) == Names(p.left) ==> h.lost(q.state) <= h.lost(p.state)
    ensures q.progress && Names(q.pushed) == Names(p.left) && h.lost(q.state) == h.lost(p.state) ==>
      && Unfinished(h, q.state) <= Unfinished(h, p.state)
      && (Unfinished(h, q.state) == Unfinished(h, p.state) ==>
            Leftovers(q.pushed, h.finished(q.state)) < Leftovers(p.left, h.finished(p.state)))
  {
    assert Leftovers([], h.finished(q.state)) == 0 && Leftovers([], h.finished(p.state)) == 0;
    hide Names, Leftovers, Unfinished;
    if q.progress && Names(q.pushed) == Names(p.left) && h.lost(q.state) == h.lost(p.state) {
      StillLess(h, p.state, q.state);
    }
  }

  lemma StillLess<S>(h: Handling<S>, s: S, t: S)
    requires h.finished(s) <= h.finished(t) <= h.universe(t) && h.universe(t) == h.universe(s)
    ensures Unfinished(h, t) <= Unfinished(h, s)
    ensures Unfinished(h, t) == Unfinished(h, s) ==> h.finished(t) == h.finished(s)
  {
    if h.finished(t) != h.finished(s) { Smaller(h.finished(s), h.finished(t), h.universe(s)); }
  }

  /** `resolve` after the units have been prepared: what is left over, the state, and the references resolved. */
  ghost function Converge<S(!new)>(h: Handling<S>, queue: seq<Unit>, s: S, recorded: seq<nat>): (seq<Unit>, S, seq<nat>)
    requires Legal(h) && Fits(h, queue, s)
    decreases Names(queue), h.lost(s), Unfinished(h, s), Leftovers(queue, h.finished(s))
  {
    ProgressShrinks(h, queue, s, recorded);
    var q := RunPass(h, Pass(queue, [], s, recorded, false));
    if !q.progress || q.pushed == [] then (q.pushed, q.state, q.recorded) else Converge(h, q.pushed, q.state, q.recorded)
  }

  /** One pass of the loop. */
  lemma ConvergeSteps<S(!new)>(h: Handling<S>, queue: seq<Unit>, s: S, recorded: seq<nat>)
    requires Legal(h) && Fits(h, queue, s)
    ensures var q := RunPass(h, Pass(queue, [], s, recorded, false));
      && Fits(h, q.pushed, q.state)
      && (if !q.progress || q.pushed == [] then Converge(h, queue, s, recorded) == (q.pushed, q.state, q.recorded)
          else
            && Converge(h, queue, s, recorded) == Converge(h, q.pushed, q.state, q.recorded)
            && (Names(q.pushed) < Names(queue) || (Names(q.pushed) == Names(queue) &&
                 (h.lost(q.state) < h.lost(s) || (h.lost(q.state) == h.lost(s) &&
                   (Unfinished(h, q.state) < Unfinished(h, s) || (Unfinished(h, q.state) == Unfinished(h, s) &&
                     Leftovers(q.pushed, h.finished(q.state)) < Leftovers(queue, h.finished(s)))))))))
  {
    ProgressShrinks(h, queue, s, recorded);
    hide RunPass, Names, Unfinished, Leftovers, Legal, Fits;
  }

  // ---- when the loop ends ----

  /** The state when the turn of the `i`-th unit of a queue comes. */
  function StateBefore<S>(h: Handling<S>, queue: seq<Unit>, s: S, i: nat): S
    requires i <= |queue|
  {
    if i == 0 then s else h.handle(queue[i - 1], StateBefore(h, queue, s, i - 1)).state
  }

  function TurnOf<S>(h: Handling<S>, queue: seq<Unit>, s: S, i: nat): Effect<S>
    requires i < |queue|
  {
    h.handle(queue[i], StateBefore(h, queue, s, i))
  }

  /** A pass up to its `i`-th unit. */
  ghost predicate PassUpTo<S>(h: Handling<S>, queue: seq<Unit>, s: S, i: nat, p: Pass<S>) {
    && i <= |queue| && p.left == queue[i..] && p.state == StateBefore(h, queue, s, i)
    && (forall v :: v in p.pushed <==> exists j: nat :: j < i && v in Pushed(queue[j], TurnOf(h, queue, s, j)))
    && (p.progress <==> exists j: nat :: j < i && TurnOf(h, queue, s, j).outcome.Found?)
  }

  lemma PassOn<S(!new)>(h: Handling<S>, queue: seq<Unit>, s: S, i: nat, p: Pass<S>)
    requires PassUpTo(h, queue, s, i, p) && i < |queue|
    ensures PassUpTo(h, queue, s, i + 1, Advance(h, p))
  {
    hide Pushed;
    var q := Advance(h, p);
    assert q.left == queue[i + 1..];
    assert p.left[0] == queue[i] && h.handle(queue[i], p.state) == TurnOf(h, queue, s, i);
    forall v ensures v in q.pushed <==> exists j: nat :: j < i + 1 && v in Pushed(queue[j], TurnOf(h, queue, s, j)) {
      assert v in q.pushed <==> v in p.pushed || v in Pushed(queue[i], TurnOf(h, queue, s, i));
    }
  }

  lemma {:induction false} PassByTurns<S(!new)>(h: Handling<S>, queue: seq<Unit>, s: S, i: nat, p: Pass<S>)
    requires PassUpTo(h, queue, s, i, p)
    ensures PassUpTo(h, queue, s, |queue|, RunPass(h, p))
    decreases |queue| - i
  {
    if i < |queue| {
      PassOn(h, queue, s, i, p);
      var q := Advance(h, p);
      assert RunPass(h, p) == RunPass(h, q);
      hide Advance, PassUpTo;
      PassByTurns(h, queue, s, i + 1, q);
    }
  }

  /** A pass hands every unit to the handler once, in order; it makes progress exactly if some unit comes out found, and
      leaves behind exactly what its units push. */
  lemma PassTurns<S(!new)>(h: Handling<S>, queue: seq<Unit>, s: S, recorded: seq<nat>)
    ensures PassUpTo(h, queue, s, |queue|, RunPass(h, Pass(queue, [], s, recorded, false)))
  {
    assert queue[0..] == queue;
    PassByTurns(h, queue, s, 0, Pass(queue, [], s, recorded, false));
  }

  /** The last pass: nothing was found in it, or nothing is left. */
  ghost predicate StuckPass<S>(h: Handling<S>, queue: seq<Unit>, s: S, left: seq<Unit>, t: S) {
    && t == StateBefore(h, queue, s, |queue|)
    && (forall v :: v in left <==> exists j: nat :: j < |queue| && v in Pushed(queue[j], TurnOf(h, queue, s, j)))
    && (left == [] || forall j: nat | j < |queue| :: !TurnOf(h, queue, s, j).outcome.Found?)
  }

  /** The loop goes on until a whole pass finds nothing or nothing is left. */
  lemma {:induction false} ConvergeEndsStuck<S(!new)>(h: Handling<S>, queue: seq<Unit>, s: S, recorded: seq<nat>)
    requires Legal(h) && Fits(h, queue, s)
    ensures var (left, t, log) := Converge(h, queue, s, recorded);
      exists q0, s0 :: Fits(h, q0, s0) && StuckPass(h, q0, s0, left, t)
    decreases Names(queue), h.lost(s), Unfinished(h, s), Leftovers(queue, h.finished(s))
  {
    ProgressShrinks(h, queue, s, recorded);
    PassTurns(h, queue, s, recorded);
    var q := RunPass(h, Pass(queue, [], s, recorded, false));
    hide RunPass, Names, Leftovers, QueuedReferences, Legal, Fits, Unfinished, Pushed, TurnOf;
    if q.progress && q.pushed != [] {
      ConvergeEndsStuck(h, q.pushed, q.state, q.recorded);
    } else {
      assert StuckPass(h, queue, s, q.pushed, q.state);
    }
  }

  /** No live reference is lost or doubled: each is recorded as resolved or handed back, exactly once. */
  lemma {:induction false} ConvergeKeepsReferences<S(!new)>(h: Handling<S>, queue: seq<Unit>, s: S, recorded: seq<nat>)
    requires Legal(h) && Fits(h, queue, s)
    ensures var (left, t, log) := Converge(h, queue, s, recorded);
      && QueuedReferences(left) + multiset(log) == QueuedReferences(queue) + multiset(recorded)
      && Fits(h, left, t)
    decreases Names(queue), h.lost(s), Unfinished(h, s), Leftovers(queue, h.finished(s))
  {
    ProgressShrinks(h, queue, s, recorded);
    var q := RunPass(h, Pass(queue, [], s, recorded, false));
    hide RunPass, Names, Leftovers, QueuedReferences, Legal, Fits, Unfinished;
    if q.progress && q.pushed != [] { ConvergeKeepsReferences(h, q.pushed, q.state, q.recorded); }
  }

  // ---- facts that every unit keeps ----

  /** A fact about the references resolved and the state that no unit breaks. */
  ghost predicate Kept<S(!new)>(h: Handling<S>, fact: (seq<nat>, S) -> bool) {
    forall u, s, log | h.holds(s) && h.known(u) && fact(log, s) ::
      fact(Logged(log, u, h.handle(u, s).outcome), h.handle(u, s).state)
  }

  lemma {:induction false} RunPassKeeps<S(!new)>(h: Handling<S>, fact: (seq<nat>, S) -> bool, p: Pass<S>)
    requires Legal(h) && PassFits(h, p) && Kept(h, fact) && fact(p.recorded, p.state)
    ensures fact(RunPass(h, p).recorded, RunPass(h, p).state)
    decreases |p.left|
  {
    if p.left != [] {
      var q := Advance(h, p);
      AdvanceFits(h, p);
      assert p.left[0] in p.left + p.pushed;
      assert fact(q.recorded, q.state);
      assert q.left == p.left[1..];
      hide Advance, Legal, PassFits, Kept;
      RunPassKeeps(h, fact, q);
    }
  }

  /** Whatever no unit breaks holds when the loop has ended. */
  lemma {:induction false} ConvergeKeeps<S(!new)>(h: Handling<S>, fact: (seq<nat>, S) -> bool, queue: seq<Unit>, s: S,
                                                  recorded: seq<nat>)
    requires Legal(h) && Fits(h, queue, s) && Kept(h, fact) && fact(recorded, s)
    ensures var (left, t, log) := Converge(h, queue, s, recorded); fact(log, t)
    decreases Names(queue), h.lost(s), Unfinished(h, s), Leftovers(queue, h.finished(s))
  {
    ProgressShrinks(h, queue, s, recorded);
    var p := Pass(queue, [], s, recorded, false);
    assert PassFits(h, p) by { assert queue + [] == queue; }
    RunPassKeeps(h, fact, p);
    var q := RunPass(h, p);
    hide RunPass, Names, Leftovers, QueuedReferences, Legal, Fits, Unfinished, Kept;
    if q.progress && q.pushed != [] { ConvergeKeeps(h, fact, q.pushed, q.state, q.recorded); }
  }

  /** The same for what holds somewhere in the first pass. */
  lemma ConvergeKeepsFrom<S(!new)>(h: Handling<S>, fact: (seq<nat>, S) -> bool, queue: seq<Unit>, s: S, recorded: seq<nat>,
                                   q: Pass<S>)
    requires Legal(h) && Fits(h, queue, s) && Kept(h, fact)
    requires RunPass(h, Pass(queue, [], s, recorded, false)) == RunPass(h, q) && PassFits(h, q) && fact(q.recorded, q.state)
    ensures var (left, t, log) := Converge(h, queue, s, recorded); fact(log, t)
  {
    ProgressShrinks(h, queue, s, recorded);
    RunPassKeeps(h, fact, q);
    var r := RunPass(h, q);
    hide RunPass, Names, Leftovers, QueuedReferences, Legal, Fits, Unfinished, Kept;
    if r.progress && r.pushed != [] { ConvergeKeeps(h, fact, r.pushed, r.state, r.recorded); }
  }

  // ---- what is true of every unit when its turn comes ----

  ghost predicate PassMeets<S>(h: Handling<S>, fact: (Unit, S) -> bool, p: Pass<S>)
    decreases |p.left|
  {
    p.left == [] || (fact(p.left[0], p.state) && PassMeets(h, fact, Advance(h, p)))
  }

  /** Whenever a unit is handled, the fact holds of it. */
  ghost predicate AlwaysMeets<S(!new)>(h: Handling<S>, fact: (Unit, S) -> bool, queue: seq<Unit>, s: S, recorded: seq<nat>)
    requires Legal(h) && Fits(h, queue, s)
    decreases Names(queue), h.lost(s), Unfinished(h, s), Leftovers(queue, h.finished(s))
  {
    ProgressShrinks(h, queue, s, recorded);
    var q := RunPass(h, Pass(queue, [], s, recorded, false));
    && PassMeets(h, fact, Pass(queue, [], s, recorded, false))
    && (q.progress && q.pushed != [] ==> AlwaysMeets(h, fact, q.pushed, q.state, q.recorded))
  }

  /** Handling a unit keeps `inv` and breaks the fact for no other unit, what is pushed meets it, and so does
      everything the unit guards. */
  ghost predicate Passed<S(!new)>(h: Handling<S>, inv: S -> bool, fact: (Unit, S) -> bool, guards: (Unit, Unit) -> bool) {
    && (forall u, s | h.holds(s) && h.known(u) && inv(s) :: inv(h.handle(u, s).state))
    && (forall u, s, v | h.holds(s) && h.known(u) && fact(v, s) :: fact(v, h.handle(u, s).state))
    && (forall u, s, v | h.holds(s) && h.known(u) && fact(u, s) && v in Pushed(u, h.handle(u, s)) ::
          fact(v, h.handle(u, s).state))
    && (forall u, s, v | h.holds(s) && h.known(u) && inv(s) && guards(u, v) :: fact(v, h.handle(u, s).state))
  }

  /** Every unit meets the fact or stands behind one that guards it. */
  ghost predicate Guarded<S>(fact: (Unit, S) -> bool, guards: (Unit, Unit) -> bool, queue: seq<Unit>, s: S) {
    forall i | 0 <= i < |queue| :: fact(queue[i], s) || exists j :: 0 <= j < i && guards(queue[j], queue[i])
  }

  lemma AdvanceGuarded<S(!new)>(h: Handling<S>, inv: S -> bool, fact: (Unit, S) -> bool, guards: (Unit, Unit) -> bool,
                                p: Pass<S>)
    requires Passed(h, inv, fact, guards) && PassFits(h, p) && inv(p.state) && p.left != []
    requires Guarded(fact, guards, p.left + p.pushed, p.state)
    ensures var q := Advance(h, p);
      inv(q.state) && Guarded(fact, guards, q.left + q.pushed, q.state) && fact(p.left[0], p.state)
  {
    hide Pushed, PassFits;
    var u := p.left[0];
    var all := p.left + p.pushed;
    assert all[0] == u;
    HeadFits(h, p);
    var e := h.handle(u, p.state);
    var rest := p.left[1..] + (p.pushed + Pushed(u, e));
    forall i | 0 <= i < |rest|
      ensures fact(rest[i], e.state) || exists j :: 0 <= j < i && guards(rest[j], rest[i])
    {
      if i + 1 < |all| {
        assert rest[i] == all[i + 1];
        if !fact(all[i + 1], p.state) {
          var j :| 0 <= j < i + 1 && guards(all[j], all[i + 1]);
          if j > 0 { assert rest[j - 1] == all[j]; }
        }
      } else {
        assert rest[i] == Pushed(u, e)[i + 1 - |all|];
      }
    }
  }

  lemma HeadFits<S>(h: Handling<S>, p: Pass<S>)
    requires PassFits(h, p) && p.left != []
    ensures h.holds(p.state) && h.known(p.left[0])
  {
    assert p.left[0] in p.left + p.pushed;
  }

  lemma {:induction false} PassMet<S(!new)>(h: Handling<S>, inv: S -> bool, fact: (Unit, S) -> bool,
                                            guards: (Unit, Unit) -> bool, p: Pass<S>)
    requires Legal(h) && Passed(h, inv, fact, guards) && PassFits(h, p) && inv(p.state)
    requires Guarded(fact, guards, p.left + p.pushed, p.state)
    ensures PassMeets(h, fact, p)
    ensures var q := RunPass(h, p); inv(q.state) && Guarded(fact, guards, q.pushed, q.state)
    decreases |p.left|
  {
    if p.left == [] {
      assert p.left + p.pushed == p.pushed;
    } else {
      AdvanceGuarded(h, inv, fact, guards, p);
      AdvanceFits(h, p);
      assert Advance(h, p).left == p.left[1..];
      hide Advance, Legal, PassFits, Passed, Guarded;
      PassMet(h, inv, fact, guards, Advance(h, p));
    }
  }

  /** From a guarded queue on, the fact holds of every unit when its turn comes. */
  lemma {:induction false} AlwaysMet<S(!new)>(h: Handling<S>, inv: S -> bool, fact: (Unit, S) -> bool,
                                              guards: (Unit, Unit) -> bool, queue: seq<Unit>, s: S, recorded: seq<nat>)
    requires Legal(h) && Fits(h, queue, s) && Passed(h, inv, fact, guards) && inv(s) && Guarded(fact, guards, queue, s)
    ensures AlwaysMeets(h, fact, queue, s, recorded)
    decreases Names(queue), h.lost(s), Unfinished(h, s), Leftovers(queue, h.finished(s))
  {
    ProgressShrinks(h, queue, s, recorded);
    var p := Pass(queue, [], s, recorded, false);
    assert queue + [] == queue;
    PassMet(h, inv, fact, guards, p);
    var q := RunPass(h, p);
    hide RunPass, PassMeets, Names, Leftovers, QueuedReferences, Legal, Fits, Unfinished, Passed, Guarded;
    if q.progress && q.pushed != [] { AlwaysMet(h, inv, fact, guards, q.pushed, q.state, q.recorded); }
  }
}
