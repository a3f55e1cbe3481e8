/** What a listing visits: exactly the paths that can be reached without entering anything excluded. */
module ListedPaths {
  import opened JobQueues
  import opened JobTrees
  import opened JobRuns
  import opened Listings

  // ---- the jobs of a walk ----

  /** Each job puts out itself. */
  function Itself<J(==)>(): J -> multiset<J> {
    (j: J) => multiset{j}
  }

  lemma {:induction false} DoneIsExecuted<J>(executed: seq<J>)
    ensures Done(Itself(), executed) == multiset(executed)
    decreases |executed|
  {
    if executed != [] {
      DoneIsExecuted(executed[..|executed| - 1]);
      assert executed == executed[..|executed| - 1] + [executed[|executed| - 1]];
    }
  }

  /** A way along pushed jobs. */
  ghost predicate Way<J(!new)>(spawn: J -> seq<J>, ws: seq<J>) {
    ws != [] && forall i | 0 <= i < |ws| - 1 :: ws[i + 1] in spawn(ws[i])
  }

  lemma {:induction false} JobsAreWalked<J(!new)>(spawn: J -> seq<J>, ws: seq<J>, n: nat)
    requires Way(spawn, ws) && Grounded(spawn, ws[0], n)
    ensures ws[|ws| - 1] in Walk(spawn, Itself(), ws[0], n)
    decreases |ws|, 1
  {
    if |ws| > 1 {
      var i :| 0 <= i < |spawn(ws[0])| && spawn(ws[0])[i] == ws[1];
      assert Way(spawn, ws[1..]);
      JobsAreWalked(spawn, ws[1..], n - 1);
      WalkedAmong(spawn, spawn(ws[0]), i, ws[|ws| - 1], n - 1);
    }
  }

  lemma {:induction false} WalkedAmong<J(!new)>(spawn: J -> seq<J>, jobs: seq<J>, i: nat, q: J, n: nat)
    requires i < |jobs| && q in Walk(spawn, Itself(), jobs[i], n)
    ensures q in WalkAll(spawn, Itself(), jobs, n)
    decreases |jobs|
  {
    hide Walk;
    if i > 0 { WalkedAmong(spawn, jobs[1..], i - 1, q, n); }
  }

  lemma {:induction false} WalkedByWay<J(!new)>(spawn: J -> seq<J>, job: J, q: J, n: nat) returns (ws: seq<J>)
    requires q in Walk(spawn, Itself(), job, n)
    ensures Way(spawn, ws) && ws[0] == job && ws[|ws| - 1] == q
    decreases n, 0
  {
    if q == job {
      ws := [job];
    } else {
      var rest := AllWalkedByWay(spawn, spawn(job), q, n - 1);
      ws := [job] + rest;
    }
  }

  lemma {:induction false} AllWalkedByWay<J(!new)>(spawn: J -> seq<J>, jobs: seq<J>, q: J, n: nat) returns (ws: seq<J>)
    requires q in WalkAll(spawn, Itself(), jobs, n)
    ensures Way(spawn, ws) && ws[0] in jobs && ws[|ws| - 1] == q
    decreases n, |jobs| + 1
  {
    hide Walk;
    if q in Walk(spawn, Itself(), jobs[0], n) {
      ws := WalkedByWay(spawn, jobs[0], q, n);
    } else {
      ws := AllWalkedByWay(spawn, jobs[1..], q, n);
    }
  }

  /** A run that ends without a panic has executed exactly the jobs that ways from the first jobs lead to. */
  lemma ExecutedByWay<J(!new)>(spawn: J -> seq<J>, jobs: seq<J>, workers: nat, events: seq<Event>, s: State<J>, q: J)
    requires Reaches(spawn, Start(jobs, workers), events, s) && AnyExited(s) && !AnyCrashed(s)
    ensures q in s.executed <==> exists ws :: Way(spawn, ws) && ws[0] in jobs && ws[|ws| - 1] == q
  {
    hide Reaches, AnyExited, AnyCrashed, Grounded, Done, WalkAll;
    RunsEndAsWalks(spawn, Itself(), jobs, workers, events, s);
    var n: nat :| AllGrounded(spawn, jobs, n);
    EveryScheduleMatchesWalk(spawn, Itself(), jobs, workers, events, s, n);
    DoneIsExecuted(s.executed);
    assert q in s.executed <==> q in WalkAll(spawn, Itself(), jobs, n);
    if q in s.executed { var ws := AllWalkedByWay(spawn, jobs, q, n); }
    forall ws | Way(spawn, ws) && ws[0] in jobs && ws[|ws| - 1] == q ensures q in WalkAll(spawn, Itself(), jobs, n) {
      var i :| 0 <= i < |jobs| && jobs[i] == ws[0];
      JobsAreWalked(spawn, ws, n);
      WalkedAmong(spawn, jobs, i, q, n);
    }
  }

  // ---- the paths of a listing ----

  /** `p` is what some path that is to be left out is canonically. */
  ghost predicate LeftOut(fs: FileSystem, given: set<Path>, p: Path) {
    exists x :: x in given && x in fs.canonical && fs.canonical[x] == p
  }

  /** An entry leads to a directory, or through a link to what that is canonically. */
  predicate EntryLeads(fs: FileSystem, entry: DirEntry, q: Path) {
    entry.DirEntry? && match KindAt(fs, entry.path)
      case Directory => entry.path == q
      case Symlink => entry.path in fs.canonical && fs.canonical[entry.path] == q
      case _ => false
  }

  /** A directory leads to what its entries lead to, a link that is neither directory nor file to its target. */
  ghost predicate Leads(fs: FileSystem, p: Path, q: Path) {
    if LeadsTo(fs, p, Directory) then
      p in fs.listings && exists i :: 0 <= i < |fs.listings[p]| && EntryLeads(fs, fs.listings[p][i], q)
    else !LeadsTo(fs, p, Regular) && KindAt(fs, p) == Symlink && p in fs.canonical && fs.canonical[p] == q
  }

  lemma {:induction false} EntriesLead(fs: FileSystem, given: set<Path>, entries: seq<DirEntry>, q: Path)
    ensures q in AllEntryJobs(fs, Excluded(fs, given), entries) <==>
      !LeftOut(fs, given, q) && exists i :: 0 <= i < |entries| && EntryLeads(fs, entries[i], q)
    decreases |entries|
  {
    if entries != [] {
      var front, last := entries[..|entries| - 1], entries[|entries| - 1];
      EntriesLead(fs, given, front, q);
      assert q in EntryJobs(fs, Excluded(fs, given), last) <==> !LeftOut(fs, given, q) && EntryLeads(fs, last, q);
      hide EntryJobs, EntryLeads, Excluded, LeftOut;
      if i :| 0 <= i < |entries| && EntryLeads(fs, entries[i], q) { assert i < |front| ==> front[i] == entries[i]; }
    }
  }

  lemma JobsLead(fs: FileSystem, given: set<Path>, p: Path, q: Path)
    ensures q in Jobs(fs, Excluded(fs, given), p) <==> !LeftOut(fs, given, q) && Leads(fs, p, q)
  {
    if p in fs.listings { EntriesLead(fs, given, fs.listings[p], q); }
    hide AllEntryJobs, EntryLeads;
  }

  lemma {:induction false} RootsLead(fs: FileSystem, given: set<Path>, paths: seq<Path>, q: Path)
    ensures q in RootJobs(fs, Excluded(fs, given), paths) <==>
      !LeftOut(fs, given, q) && exists i :: 0 <= i < |paths| && paths[i] in fs.canonical && fs.canonical[paths[i]] == q
    decreases |paths|
  {
    if paths != [] {
      var front, last := paths[..|paths| - 1], paths[|paths| - 1];
      RootsLead(fs, given, front, q);
      assert q in LinkJobs(fs, Excluded(fs, given), last) <==>
        !LeftOut(fs, given, q) && last in fs.canonical && fs.canonical[last] == q;
      hide LinkJobs, Excluded, LeftOut;
      if i :| 0 <= i < |paths| && paths[i] in fs.canonical && fs.canonical[paths[i]] == q {
        assert i < |front| ==> front[i] == paths[i];
      }
    }
  }

  /** A way from a given path that enters nothing left out. */
  ghost predicate OpenWay(fs: FileSystem, given: set<Path>, paths: seq<Path>, ws: seq<Path>) {
    && ws != [] && (exists i :: 0 <= i < |paths| && paths[i] in fs.canonical && fs.canonical[paths[i]] == ws[0])
    && (forall i | 0 <= i < |ws| :: !LeftOut(fs, given, ws[i]))
    && (forall i | 0 <= i < |ws| - 1 :: Leads(fs, ws[i], ws[i + 1]))
  }

  lemma OpenWays(fs: FileSystem, given: set<Path>, paths: seq<Path>, ws: seq<Path>)
    ensures OpenWay(fs, given, paths, ws) <==>
      Way(Spawner(fs, Excluded(fs, given)), ws) && ws[0] in RootJobs(fs, Excluded(fs, given), paths)
  {
    hide Leads, LeftOut, RootJobs, Excluded, Jobs;
    if ws != [] {
      RootsLead(fs, given, paths, ws[0]);
      forall i | 0 <= i < |ws| - 1
        ensures ws[i + 1] in Jobs(fs, Excluded(fs, given), ws[i]) <==>
          !LeftOut(fs, given, ws[i + 1]) && Leads(fs, ws[i], ws[i + 1])
      {
        JobsLead(fs, given, ws[i], ws[i + 1]);
      }
      assert forall i | 0 <= i < |ws| - 1 :: Spawner(fs, Excluded(fs, given))(ws[i]) == Jobs(fs, Excluded(fs, given), ws[i]);
      if Way(Spawner(fs, Excluded(fs, given)), ws) && ws[0] in RootJobs(fs, Excluded(fs, given), paths) {
        forall i | 0 <= i < |ws| ensures !LeftOut(fs, given, ws[i]) {
          if i > 0 { assert ws[i - 1 + 1] in Spawner(fs, Excluded(fs, given))(ws[i - 1]); }
        }
      }
    }
  }

  /** A listing that ends without a panic has visited exactly the paths that can be reached from the given ones without
      entering anything that is left out, and every message comes from one of them. */
  lemma NothingLeftOutIsListed(fs: FileSystem, given: set<Path>, paths: seq<Path>, workers: nat, events: seq<Event>,
                               s: State<Path>)
    requires Reaches(Spawner(fs, Excluded(fs, given)),
                     Start(RootJobs(fs, Excluded(fs, given), paths), workers), events, s)
    requires AnyExited(s) && !AnyCrashed(s)
    ensures forall q :: q in s.executed <==> exists ws: seq<Path> :: OpenWay(fs, given, paths, ws) && ws[|ws| - 1] == q
    ensures forall x | x in given && x in fs.canonical :: fs.canonical[x] !in s.executed
    ensures forall m | m in Done(Sender(fs), s.executed) :: exists q :: q in s.executed && m in Messages(fs, q)
  {
    hide Reaches, AnyExited, AnyCrashed, RootJobs, Spawner, Excluded, Messages, Leads;
    var spawn, jobs := Spawner(fs, Excluded(fs, given)), RootJobs(fs, Excluded(fs, given), paths);
    forall q ensures q in s.executed <==> exists ws: seq<Path> :: OpenWay(fs, given, paths, ws) && ws[|ws| - 1] == q {
      ExecutedByWay(spawn, jobs, workers, events, s, q);
      forall ws: seq<Path> ensures OpenWay(fs, given, paths, ws) <==> Way(spawn, ws) && ws[0] in jobs {
        OpenWays(fs, given, paths, ws);
      }
      hide OpenWay;
    }
    forall m | m in Done(Sender(fs), s.executed) ensures exists q :: q in s.executed && m in Messages(fs, q) {
      var q := SentBy(fs, s.executed, m);
    }
  }

  lemma {:induction false} SentBy(fs: FileSystem, executed: seq<Path>, m: Message) returns (q: Path)
    requires m in Done(Sender(fs), executed)
    ensures q in executed && m in Messages(fs, q)
    decreases |executed|
  {
    hide Messages;
    var front, last := executed[..|executed| - 1], executed[|executed| - 1];
    assert Sender(fs)(last) == multiset(Messages(fs, last));
    if m in Done(Sender(fs), front) { q := SentBy(fs, front, m); } else { q := last; }
  }

  // ---- what is said about a path ----

  predicate IsRubyFile(fs: FileSystem, p: Path) {
    p in fs.extensions && fs.extensions[p] in {"rb", "rbs"}
  }

  /** What an entry of a directory is reported as. */
  predicate SaidOf(fs: FileSystem, dir: Path, entry: DirEntry, m: Message) {
    if entry.Unreadable? then m == CannotRead(dir)
    else
      match KindAt(fs, entry.path)
      case Directory => false
      case Regular => m == Found(entry.path) && IsRubyFile(fs, entry.path)
      case Symlink => m == CannotCanonicalize(entry.path) && entry.path !in fs.canonical
      case Special => m == NoFileOrDirectory(entry.path)
  }

  lemma {:induction false} EntriesSay(fs: FileSystem, dir: Path, entries: seq<DirEntry>, m: Message)
    ensures m in AllEntryMessages(fs, dir, entries) <==> exists i :: 0 <= i < |entries| && SaidOf(fs, dir, entries[i], m)
    decreases |entries|
  {
    if entries != [] {
      var front, last := entries[..|entries| - 1], entries[|entries| - 1];
      EntriesSay(fs, dir, front, m);
      assert m in EntryMessages(fs, dir, last) <==> SaidOf(fs, dir, last, m);
      hide EntryMessages, SaidOf;
      if i :| 0 <= i < |entries| && SaidOf(fs, dir, entries[i], m) { assert i < |front| ==> front[i] == entries[i]; }
    }
  }

  /** Which messages the visit of a path sends: every file with the right extension that it is or holds is found, and
      everything that cannot be read, followed or classified is reported. */
  lemma MessagesExactly(fs: FileSystem, p: Path, m: Message)
    ensures m in Messages(fs, p) <==>
      if LeadsTo(fs, p, Directory) then
        if p in fs.listings then exists i :: 0 <= i < |fs.listings[p]| && SaidOf(fs, p, fs.listings[p][i], m)
        else m == CannotRead(p)
      else if LeadsTo(fs, p, Regular) then m == Found(p) && IsRubyFile(fs, p)
      else if KindAt(fs, p) == Symlink then m == CannotCanonicalize(p) && p !in fs.canonical
      else m == NoFileOrDirectory(p)
  {
    if p in fs.listings { EntriesSay(fs, p, fs.listings[p], m); }
    hide AllEntryMessages, SaidOf;
  }
}
