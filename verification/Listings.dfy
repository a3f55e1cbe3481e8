/** File discovery: jobs that list one path each and push the directories and link targets they meet. */
module Listings {
  import opened JobQueues
  import opened JobTrees
  import opened JobRuns
  import opened JobCycles

  type Path = nat

  datatype FileKind = Directory | Regular | Symlink | Special

  datatype DirEntry = Unreadable | DirEntry(path: Path)

  /** A file system that does not change while it is listed. `kinds` does not follow links; `canonical`
      and `listings` hold what can be canonicalized and read. */
  datatype FileSystem = FileSystem(
    kinds: map<Path, FileKind>,
    canonical: map<Path, Path>,
    listings: map<Path, seq<DirEntry>>,
    extensions: map<Path, string>)

  datatype Message =
    | Found(path: Path)
    | CannotCanonicalize(path: Path)
    | CannotRead(path: Path)
    | NoFileOrDirectory(path: Path)
    | DoesNotExist(path: Path)

  function KindAt(fs: FileSystem, p: Path): FileKind {
    if p in fs.kinds then fs.kinds[p] else Special
  }

  /** `is_dir` and `is_file` follow links. */
  predicate LeadsTo(fs: FileSystem, p: Path, kind: FileKind) {
    p in fs.canonical && KindAt(fs, fs.canonical[p]) == kind
  }

  predicate IsRuby(fs: FileSystem, p: Path) {
    p in fs.extensions && (fs.extensions[p] == "rb" || fs.extensions[p] == "rbs")
  }

  // ---- a sequential walk ----

  function VisitFile(fs: FileSystem, p: Path): seq<Message> {
    if IsRuby(fs, p) then [Found(p)] else []
  }

  function Visit(fs: FileSystem, excluded: set<Path>, p: Path, n: nat): seq<Message>
    decreases n, 0
  {
    if n == 0 then []
    else if LeadsTo(fs, p, Directory) then
      if p in fs.listings then VisitEntries(fs, excluded, p, fs.listings[p], n - 1) else [CannotRead(p)]
    else if LeadsTo(fs, p, Regular) then VisitFile(fs, p)
    else if KindAt(fs, p) == Symlink then VisitLink(fs, excluded, p, n - 1)
    else [NoFileOrDirectory(p)]
  }

  function VisitLink(fs: FileSystem, excluded: set<Path>, p: Path, n: nat): seq<Message>
    decreases n, 1
  {
    if p !in fs.canonical then [CannotCanonicalize(p)]
    else if fs.canonical[p] in excluded then []
    else Visit(fs, excluded, fs.canonical[p], n)
  }

  function VisitEntry(fs: FileSystem, excluded: set<Path>, dir: Path, entry: DirEntry, n: nat): seq<Message>
    decreases n, 2
  {
    if entry.Unreadable? then [CannotRead(dir)]
    else
      match KindAt(fs, entry.path)
      case Directory => if entry.path in excluded then [] else Visit(fs, excluded, entry.path, n)
      case Regular => VisitFile(fs, entry.path)
      case Symlink => VisitLink(fs, excluded, entry.path, n)
      case Special => [NoFileOrDirectory(entry.path)]
  }

  function VisitEntries(fs: FileSystem, excluded: set<Path>, dir: Path, entries: seq<DirEntry>, n: nat): seq<Message>
    decreases n, |entries| + 3
  {
    if entries == [] then []
    else VisitEntry(fs, excluded, dir, entries[0], n) + VisitEntries(fs, excluded, dir, entries[1..], n)
  }

  // ---- one job ----

  /** What handling a link pushes and sends. */
  function LinkJobs(fs: FileSystem, excluded: set<Path>, p: Path): seq<Path> {
    if p in fs.canonical && fs.canonical[p] !in excluded then [fs.canonical[p]] else []
  }

  function LinkMessages(fs: FileSystem, p: Path): seq<Message> {
    if p in fs.canonical then [] else [CannotCanonicalize(p)]
  }

  function EntryJobs(fs: FileSystem, excluded: set<Path>, entry: DirEntry): seq<Path> {
    if entry.Unreadable? then []
    else
      match KindAt(fs, entry.path)
      case Directory => if entry.path in excluded then [] else [entry.path]
      case Symlink => LinkJobs(fs, excluded, entry.path)
      case _ => []
  }

  function EntryMessages(fs: FileSystem, dir: Path, entry: DirEntry): seq<Message> {
    if entry.Unreadable? then [CannotRead(dir)]
    else
      match KindAt(fs, entry.path)
      case Directory => []
      case Regular => VisitFile(fs, entry.path)
      case Symlink => LinkMessages(fs, entry.path)
      case Special => [NoFileOrDirectory(entry.path)]
  }

  function AllEntryJobs(fs: FileSystem, excluded: set<Path>, entries: seq<DirEntry>): seq<Path> {
    if entries == [] then []
    else AllEntryJobs(fs, excluded, entries[..|entries| - 1]) + EntryJobs(fs, excluded, entries[|entries| - 1])
  }

  function AllEntryMessages(fs: FileSystem, dir: Path, entries: seq<DirEntry>): seq<Message> {
    if entries == [] then []
    else AllEntryMessages(fs, dir, entries[..|entries| - 1]) + EntryMessages(fs, dir, entries[|entries| - 1])
  }

  /** The jobs one run pushes. */
  function Jobs(fs: FileSystem, excluded: set<Path>, p: Path): seq<Path> {
    if LeadsTo(fs, p, Directory) then
      if p in fs.listings then AllEntryJobs(fs, excluded, fs.listings[p]) else []
    else if LeadsTo(fs, p, Regular) then []
    else if KindAt(fs, p) == Symlink then LinkJobs(fs, excluded, p)
    else []
  }

  /** The messages one run sends. */
  function Messages(fs: FileSystem, p: Path): seq<Message> {
    if LeadsTo(fs, p, Directory) then
      if p in fs.listings then AllEntryMessages(fs, p, fs.listings[p]) else [CannotRead(p)]
    else if LeadsTo(fs, p, Regular) then VisitFile(fs, p)
    else if KindAt(fs, p) == Symlink then LinkMessages(fs, p)
    else [NoFileOrDirectory(p)]
  }

  function Spawner(fs: FileSystem, excluded: set<Path>): Path -> seq<Path> {
    (p: Path) => Jobs(fs, excluded, p)
  }

  function Sender(fs: FileSystem): Path -> multiset<Message> {
    (p: Path) => multiset(Messages(fs, p))
  }

  // ---- jobs against the walk ----

  ghost function Below(fs: FileSystem, excluded: set<Path>, jobs: seq<Path>, n: nat): multiset<Message> {
    WalkAll(Spawner(fs, excluded), Sender(fs), jobs, n)
  }

  lemma BelowOne(fs: FileSystem, excluded: set<Path>, p: Path, n: nat)
    ensures Below(fs, excluded, [p], n) == Walk(Spawner(fs, excluded), Sender(fs), p, n)
  {
    WalkOne(Spawner(fs, excluded), Sender(fs), p, n);
  }

  lemma BelowMore(fs: FileSystem, excluded: set<Path>, a: seq<Path>, b: seq<Path>, n: nat)
    ensures Below(fs, excluded, a + b, n) == Below(fs, excluded, a, n) + Below(fs, excluded, b, n)
  {
    WalkAppend(Spawner(fs, excluded), Sender(fs), a, b, n);
  }

  /** Visiting directories in place and pushing them as jobs finds the same things. */
  lemma {:induction false} VisitIsWalk(fs: FileSystem, excluded: set<Path>, p: Path, n: nat)
    ensures multiset(Visit(fs, excluded, p, n)) == Walk(Spawner(fs, excluded), Sender(fs), p, n)
    decreases n, 0
  {
    if n > 0 {
      VisitIsJob(fs, excluded, p, n);
      hide Visit, Jobs, Messages, Walk;
      WalkIsJob(fs, excluded, p, n);
    }
  }

  lemma WalkIsJob(fs: FileSystem, excluded: set<Path>, p: Path, n: nat)
    requires n > 0
    ensures Walk(Spawner(fs, excluded), Sender(fs), p, n)
         == multiset(Messages(fs, p)) + Below(fs, excluded, Jobs(fs, excluded, p), n - 1)
  {
    hide Jobs, Messages, WalkAll;
  }

  lemma {:induction false} VisitIsJob(fs: FileSystem, excluded: set<Path>, p: Path, n: nat)
    requires n > 0
    ensures multiset(Visit(fs, excluded, p, n))
         == multiset(Messages(fs, p)) + Below(fs, excluded, Jobs(fs, excluded, p), n - 1)
    decreases n - 1, |if p in fs.listings then fs.listings[p] else []| + 4
  {
    hide Below, Jobs, Messages, Visit, VisitEntries, VisitLink, AllEntryJobs, AllEntryMessages, LinkJobs, LinkMessages,
      KindAt, LeadsTo;
    if LeadsTo(fs, p, Directory) && p in fs.listings {
      VisitEntriesIsWalk(fs, excluded, p, fs.listings[p], n - 1);
      DirectoryJob(fs, excluded, p, n);
    } else if !LeadsTo(fs, p, Directory) && !LeadsTo(fs, p, Regular) && KindAt(fs, p) == Symlink {
      VisitLinkIsWalk(fs, excluded, p, n - 1);
      LinkJob(fs, excluded, p, n);
    } else {
      LeafJob(fs, excluded, p, n);
    }
  }

  lemma DirectoryJob(fs: FileSystem, excluded: set<Path>, p: Path, n: nat)
    requires n > 0 && LeadsTo(fs, p, Directory) && p in fs.listings
    ensures Visit(fs, excluded, p, n) == VisitEntries(fs, excluded, p, fs.listings[p], n - 1)
    ensures Messages(fs, p) == AllEntryMessages(fs, p, fs.listings[p])
    ensures Jobs(fs, excluded, p) == AllEntryJobs(fs, excluded, fs.listings[p])
  {
    hide VisitEntries, AllEntryMessages, AllEntryJobs;
  }

  lemma LinkJob(fs: FileSystem, excluded: set<Path>, p: Path, n: nat)
    requires n > 0 && !LeadsTo(fs, p, Directory) && !LeadsTo(fs, p, Regular) && KindAt(fs, p) == Symlink
    ensures Visit(fs, excluded, p, n) == VisitLink(fs, excluded, p, n - 1)
    ensures Messages(fs, p) == LinkMessages(fs, p) && Jobs(fs, excluded, p) == LinkJobs(fs, excluded, p)
  {
    hide VisitLink, LinkMessages, LinkJobs;
  }

  lemma LeafJob(fs: FileSystem, excluded: set<Path>, p: Path, n: nat)
    requires n > 0 && (LeadsTo(fs, p, Directory) ==> p !in fs.listings)
    requires LeadsTo(fs, p, Directory) || LeadsTo(fs, p, Regular) || KindAt(fs, p) != Symlink
    ensures Visit(fs, excluded, p, n) == Messages(fs, p) && Jobs(fs, excluded, p) == []
    ensures Below(fs, excluded, [], n - 1) == multiset{}
  {
    hide Walk;
  }

  lemma {:induction false} VisitLinkIsWalk(fs: FileSystem, excluded: set<Path>, p: Path, n: nat)
    ensures multiset(VisitLink(fs, excluded, p, n))
         == multiset(LinkMessages(fs, p)) + Below(fs, excluded, LinkJobs(fs, excluded, p), n)
    decreases n, 1
  {
    if p in fs.canonical && fs.canonical[p] !in excluded {
      VisitIsWalk(fs, excluded, fs.canonical[p], n);
      BelowOne(fs, excluded, fs.canonical[p], n);
    }
  }

  lemma {:induction false} VisitEntryIsWalk(fs: FileSystem, excluded: set<Path>, dir: Path, entry: DirEntry, n: nat)
    ensures multiset(VisitEntry(fs, excluded, dir, entry, n))
         == multiset(EntryMessages(fs, dir, entry)) + Below(fs, excluded, EntryJobs(fs, excluded, entry), n)
    decreases n, 2
  {
    if entry.DirEntry? && KindAt(fs, entry.path) == Symlink {
      VisitLinkIsWalk(fs, excluded, entry.path, n);
    } else if entry.DirEntry? && KindAt(fs, entry.path) == Directory && entry.path !in excluded {
      VisitIsWalk(fs, excluded, entry.path, n);
      BelowOne(fs, excluded, entry.path, n);
    } else {
      assert EntryJobs(fs, excluded, entry) == [];
    }
  }

  lemma VisitEntriesLast(fs: FileSystem, excluded: set<Path>, dir: Path, entries: seq<DirEntry>, last: DirEntry, n: nat)
    ensures VisitEntries(fs, excluded, dir, entries + [last], n)
         == VisitEntries(fs, excluded, dir, entries, n) + VisitEntry(fs, excluded, dir, last, n)
    decreases |entries|
  {
    hide VisitEntry;
    if entries == [] {
      assert entries + [last] == [last];
    } else {
      assert (entries + [last])[1..] == entries[1..] + [last];
      VisitEntriesLast(fs, excluded, dir, entries[1..], last, n);
    }
  }

  lemma {:induction false} VisitEntriesIsWalk(fs: FileSystem, excluded: set<Path>, dir: Path, entries: seq<DirEntry>, n: nat)
    ensures multiset(VisitEntries(fs, excluded, dir, entries, n))
         == multiset(AllEntryMessages(fs, dir, entries)) + Below(fs, excluded, AllEntryJobs(fs, excluded, entries), n)
    decreases n, |entries| + 3
  {
    if entries != [] {
      var front, last := entries[..|entries| - 1], entries[|entries| - 1];
      assert entries == front + [last];
      VisitEntriesLast(fs, excluded, dir, front, last, n);
      VisitEntriesIsWalk(fs, excluded, dir, front, n);
      Counted(VisitEntries(fs, excluded, dir, front, n), VisitEntry(fs, excluded, dir, last, n));
      VisitEntryIsWalk(fs, excluded, dir, last, n);
      hide VisitEntries, VisitEntry, Below, EntryMessages, EntryJobs;
      var jobs, messages := AllEntryJobs(fs, excluded, front), AllEntryMessages(fs, dir, front);
      BelowMore(fs, excluded, jobs, EntryJobs(fs, excluded, last), n);
      assert AllEntryJobs(fs, excluded, entries) == jobs + EntryJobs(fs, excluded, last);
      assert AllEntryMessages(fs, dir, entries) == messages + EntryMessages(fs, dir, last);
      hide AllEntryJobs, AllEntryMessages;
      Interleaved(messages, EntryMessages(fs, dir, last), Below(fs, excluded, jobs, n),
                  Below(fs, excluded, EntryJobs(fs, excluded, last), n));
    }
  }

  lemma Counted(a: seq<Message>, b: seq<Message>)
    ensures multiset(a + b) == multiset(a) + multiset(b)
  {
  }

  lemma Interleaved(a: seq<Message>, b: seq<Message>, c: multiset<Message>, d: multiset<Message>)
    ensures multiset(a + b) + (c + d) == (multiset(a) + c) + (multiset(b) + d)
  {
  }

  // ---- whole listings ----

  /** Excluded paths are canonicalized first; those that cannot be are dropped. */
  function Excluded(fs: FileSystem, given: set<Path>): set<Path> {
    set p | p in given && p in fs.canonical :: fs.canonical[p]
  }

  function RootJobs(fs: FileSystem, excluded: set<Path>, paths: seq<Path>): seq<Path> {
    if paths == [] then []
    else RootJobs(fs, excluded, paths[..|paths| - 1]) + LinkJobs(fs, excluded, paths[|paths| - 1])
  }

  function RootErrors(fs: FileSystem, paths: seq<Path>): seq<Message> {
    if paths == [] then []
    else
      var last := paths[|paths| - 1];
      RootErrors(fs, paths[..|paths| - 1]) + if last in fs.canonical then [] else [DoesNotExist(last)]
  }

  function VisitRoots(fs: FileSystem, excluded: set<Path>, paths: seq<Path>, n: nat): seq<Message> {
    if paths == [] then []
    else
      var last := paths[|paths| - 1];
      VisitRoots(fs, excluded, paths[..|paths| - 1], n) +
      if last !in fs.canonical then [DoesNotExist(last)]
      else if fs.canonical[last] in excluded then []
      else Visit(fs, excluded, fs.canonical[last], n)
  }

  lemma {:induction false} VisitRootsIsWalk(fs: FileSystem, excluded: set<Path>, paths: seq<Path>, n: nat)
    ensures multiset(VisitRoots(fs, excluded, paths, n))
         == multiset(RootErrors(fs, paths)) + Below(fs, excluded, RootJobs(fs, excluded, paths), n)
    decreases |paths|
  {
    if paths != [] {
      var front, last := paths[..|paths| - 1], paths[|paths| - 1];
      VisitRootsIsWalk(fs, excluded, front, n);
      BelowMore(fs, excluded, RootJobs(fs, excluded, front), LinkJobs(fs, excluded, last), n);
      LastRoot(fs, excluded, last, n);
      hide Visit, Below, LinkJobs;
    }
  }

  lemma LastRoot(fs: FileSystem, excluded: set<Path>, p: Path, n: nat)
    ensures Below(fs, excluded, LinkJobs(fs, excluded, p), n) ==
      if p in fs.canonical && fs.canonical[p] !in excluded then multiset(Visit(fs, excluded, fs.canonical[p], n))
      else multiset{}
  {
    if p in fs.canonical && fs.canonical[p] !in excluded {
      VisitIsWalk(fs, excluded, fs.canonical[p], n);
      BelowOne(fs, excluded, fs.canonical[p], n);
    }
  }

  /** Whatever the number of workers and the schedule, a listing that ends without a panic has sent exactly
      the messages of the sequential walk, each as often, and took one steal for each job pushed. The walk
      is complete at some depth, and the same at every depth at which it is. */
  lemma ListingMatchesWalk(fs: FileSystem, given: set<Path>, paths: seq<Path>, workers: nat, events: seq<Event>,
                           s: State<Path>)
    requires Reaches(Spawner(fs, Excluded(fs, given)),
                     Start(RootJobs(fs, Excluded(fs, given), paths), workers), events, s)
    requires AnyExited(s) && !AnyCrashed(s)
    ensures exists n: nat :: WalkComplete(fs, given, paths, n)
    ensures forall n: nat | WalkComplete(fs, given, paths, n) ::
      multiset(RootErrors(fs, paths)) + Done(Sender(fs), s.executed)
      == multiset(VisitRoots(fs, Excluded(fs, given), paths, n))
    ensures s.steals == |s.pushed|
  {
    hide VisitRoots, RootErrors, RootJobs, WalkAll, Done, Excluded, Spawner, Sender, Reaches, AnyExited, AnyCrashed;
    var excluded := Excluded(fs, given);
    var jobs := RootJobs(fs, excluded, paths);
    RunsEndAsWalks(Spawner(fs, excluded), Sender(fs), jobs, workers, events, s);
    var m: nat :| AllGrounded(Spawner(fs, excluded), jobs, m);
    assert WalkComplete(fs, given, paths, m);
    forall n: nat | WalkComplete(fs, given, paths, n)
      ensures multiset(RootErrors(fs, paths)) + Done(Sender(fs), s.executed) == multiset(VisitRoots(fs, excluded, paths, n))
    {
      EveryScheduleMatchesWalk(Spawner(fs, excluded), Sender(fs), jobs, workers, events, s, n);
      VisitRootsIsWalk(fs, excluded, paths, n);
    }
    AllStolen(Spawner(fs, excluded), jobs, workers, events, s);
  }

  /** A walk to depth `n` is cut off nowhere. */
  ghost predicate WalkComplete(fs: FileSystem, given: set<Path>, paths: seq<Path>, n: nat) {
    AllGrounded(Spawner(fs, Excluded(fs, given)), RootJobs(fs, Excluded(fs, given), paths), n)
  }

  lemma AllStolen(spawn: Path -> seq<Path>, jobs: seq<Path>, workers: nat, events: seq<Event>, s: State<Path>)
    requires Reaches(spawn, Start(jobs, workers), events, s) && AnyExited(s)
    ensures s.steals == |s.pushed|
  {
    ExitMeansDone(spawn, jobs, workers, events, s);
    assert |multiset(s.executed)| == |s.executed|;
  }

  // ---- cycles ----

  /** From `root` directories and links lead in a circle that no exclusion cuts. */
  ghost predicate Circular(fs: FileSystem, excluded: set<Path>, root: Path) {
    ReachesCycle(Spawner(fs, excluded), root)
  }

  /** The paths a listing can meet besides those it starts with. */
  function KnownPaths(fs: FileSystem): set<Path> {
    fs.kinds.Keys + fs.canonical.Values
  }

  lemma {:induction false} EntriesKnown(fs: FileSystem, excluded: set<Path>, entries: seq<DirEntry>)
    ensures forall q | q in AllEntryJobs(fs, excluded, entries) :: q in KnownPaths(fs)
    decreases |entries|
  {
    if entries != [] { EntriesKnown(fs, excluded, entries[..|entries| - 1]); }
  }

  lemma JobsKnown(fs: FileSystem, excluded: set<Path>, p: Path)
    ensures forall q | q in Jobs(fs, excluded, p) :: q in KnownPaths(fs)
  {
    if p in fs.listings { EntriesKnown(fs, excluded, fs.listings[p]); }
  }

  lemma {:induction false} RootsKnown(fs: FileSystem, excluded: set<Path>, paths: seq<Path>)
    ensures forall q | q in RootJobs(fs, excluded, paths) :: q in KnownPaths(fs)
    decreases |paths|
  {
    if paths != [] { RootsKnown(fs, excluded, paths[..|paths| - 1]); }
  }

  /** The jobs below a path are finitely many exactly if no circle can be reached from it; then the number of
      known paths bounds the depth. */
  lemma FiniteExactlyWithoutCircles(fs: FileSystem, excluded: set<Path>, root: Path)
    requires root in KnownPaths(fs)
    ensures HasFiniteTree(Spawner(fs, excluded), root) <==> !Circular(fs, excluded, root)
    ensures !Circular(fs, excluded, root) ==> Grounded(Spawner(fs, excluded), root, |KnownPaths(fs)|)
  {
    var spawn := Spawner(fs, excluded);
    forall p | p in KnownPaths(fs) ensures forall q | q in spawn(p) :: q in KnownPaths(fs) { JobsKnown(fs, excluded, p); }
    hide Jobs, KnownPaths, Grounded;
    if Circular(fs, excluded, root) {
      CyclesAreInfinite(spawn, root);
    } else {
      FiniteWithoutCycles(spawn, KnownPaths(fs), root);
    }
  }

  /** A listing from which a circle can be reached never ends without a panic, whatever the schedule. */
  lemma CirclesNeverEnd(fs: FileSystem, given: set<Path>, paths: seq<Path>, root: Path, workers: nat,
                        events: seq<Event>, s: State<Path>)
    requires root in RootJobs(fs, Excluded(fs, given), paths) && Circular(fs, Excluded(fs, given), root)
    requires Reaches(Spawner(fs, Excluded(fs, given)),
                     Start(RootJobs(fs, Excluded(fs, given), paths), workers), events, s)
    requires !AnyCrashed(s)
    ensures !AnyExited(s) && s.inFlight > 0
  {
    CyclicRunsNeverEnd(Spawner(fs, Excluded(fs, given)), RootJobs(fs, Excluded(fs, given), paths), root, workers, events, s);
  }

  ghost predicate CircleFree(fs: FileSystem, given: set<Path>, paths: seq<Path>) {
    forall root | root in RootJobs(fs, Excluded(fs, given), paths) :: !Circular(fs, Excluded(fs, given), root)
  }

  /** Where no circle can be reached, every schedule is bounded in its work, and if no job panics a worker
      can only leave with the outcome of the complete sequential walk, which goes no deeper than there are
      paths. */
  lemma CircleFreeListings(fs: FileSystem, given: set<Path>, paths: seq<Path>, workers: nat, events: seq<Event>,
                           s: State<Path>)
    requires CircleFree(fs, given, paths)
    requires Reaches(Spawner(fs, Excluded(fs, given)),
                     Start(RootJobs(fs, Excluded(fs, given), paths), workers), events, s)
    ensures WalkComplete(fs, given, paths, |KnownPaths(fs)|)
    ensures ProductiveCount(events) <=
      4 * TreeSize(Spawner(fs, Excluded(fs, given)), RootJobs(fs, Excluded(fs, given), paths), |KnownPaths(fs)|)
    ensures AnyExited(s) && !AnyCrashed(s) ==>
      multiset(RootErrors(fs, paths)) + Done(Sender(fs), s.executed)
      == multiset(VisitRoots(fs, Excluded(fs, given), paths, |KnownPaths(fs)|))
  {
    hide VisitRoots, RootErrors, RootJobs, WalkAll, Done, Excluded, Spawner, Sender, Reaches, AnyExited, AnyCrashed,
      Circular, Grounded, KnownPaths;
    var excluded, n := Excluded(fs, given), |KnownPaths(fs)|;
    var jobs := RootJobs(fs, excluded, paths);
    RootsKnown(fs, excluded, paths);
    forall i | 0 <= i < |jobs| ensures Grounded(Spawner(fs, excluded), jobs[i], n) {
      assert jobs[i] in jobs;
      FiniteExactlyWithoutCircles(fs, excluded, jobs[i]);
    }
    BoundedWork(Spawner(fs, excluded), jobs, workers, events, s, n);
    if AnyExited(s) && !AnyCrashed(s) { ListingMatchesWalk(fs, given, paths, workers, events, s); }
  }

  // ---- the jobs themselves ----

  lemma OneMoreEntry(fs: FileSystem, excluded: set<Path>, dir: Path, entries: seq<DirEntry>, i: nat)
    requires i < |entries|
    ensures AllEntryJobs(fs, excluded, entries[..i + 1])
         == AllEntryJobs(fs, excluded, entries[..i]) + EntryJobs(fs, excluded, entries[i])
    ensures AllEntryMessages(fs, dir, entries[..i + 1])
         == AllEntryMessages(fs, dir, entries[..i]) + EntryMessages(fs, dir, entries[i])
  {
    hide EntryJobs, EntryMessages;
    assert entries[..i + 1][..i] == entries[..i];
  }

  lemma Appended<T>(a: seq<T>, b: seq<T>, c: seq<T>)
    ensures a + (b + c) == (a + b) + c
  {
  }

  lemma NoEntries(fs: FileSystem, excluded: set<Path>, dir: Path, entries: seq<DirEntry>)
    ensures AllEntryJobs(fs, excluded, entries[..0]) == [] && AllEntryMessages(fs, dir, entries[..0]) == []
    ensures entries[..|entries|] == entries
  {
  }

  /** The jobs of one listing: what they push onto the queue and send on their channels. */
  class FileDiscovery {
    const fs: FileSystem
    const excluded: set<Path>
    var pushed: seq<Path>
    var sent: seq<Message>

    /** The first half of `collect_file_paths` */
    constructor (fs: FileSystem, given: set<Path>, paths: seq<Path>)
      ensures this.fs == fs && excluded == Excluded(fs, given)
      ensures pushed == RootJobs(fs, excluded, paths) && sent == RootErrors(fs, paths)
    {
      this.fs := fs;
      excluded := Excluded(fs, given);
      pushed, sent := [], [];
      new;
      for i := 0 to |paths|
        invariant pushed == RootJobs(fs, excluded, paths[..i]) && sent == RootErrors(fs, paths[..i])
      {
        assert paths[..i + 1][..i] == paths[..i];
        var path := paths[i];
        if path !in fs.canonical {
          sent := sent + [DoesNotExist(path)];
        } else if fs.canonical[path] !in excluded {
          pushed := pushed + [fs.canonical[path]];
        }
      }
      assert paths[..|paths|] == paths;
    }

    method HandleFile(path: Path)
      modifies this
      ensures pushed == old(pushed) && sent == old(sent) + VisitFile(fs, path)
    {
      if IsRuby(fs, path) {
        sent := sent + [Found(path)];
      }
    }

    method HandleSymlink(path: Path)
      modifies this
      ensures pushed == old(pushed) + LinkJobs(fs, excluded, path)
      ensures sent == old(sent) + LinkMessages(fs, path)
    {
      if path !in fs.canonical {
        sent := sent + [CannotCanonicalize(path)];
        return;
      }
      if fs.canonical[path] in excluded {
        return;
      }
      pushed := pushed + [fs.canonical[path]];
    }

    method Run(path: Path)
      modifies this
      ensures pushed == old(pushed) + Jobs(fs, excluded, path)
      ensures sent == old(sent) + Messages(fs, path)
    {
      if LeadsTo(fs, path, Directory) {
        RunDirectory(path);
      } else if LeadsTo(fs, path, Regular) {
        HandleFile(path);
      } else if KindAt(fs, path) == Symlink {
        HandleSymlink(path);
      } else {
        sent := sent + [NoFileOrDirectory(path)];
      }
    }

    /** The branch of `run` for directories */
    method RunDirectory(path: Path)
      modifies this
      ensures pushed == old(pushed) + if path in fs.listings then AllEntryJobs(fs, excluded, fs.listings[path]) else []
      ensures sent == old(sent) +
        if path in fs.listings then AllEntryMessages(fs, path, fs.listings[path]) else [CannotRead(path)]
    {
      if path !in fs.listings {
        sent := sent + [CannotRead(path)];
        return;
      }
      var entries := fs.listings[path];
      NoEntries(fs, excluded, path, entries);
      hide AllEntryJobs, AllEntryMessages, EntryJobs, EntryMessages;
      for i := 0 to |entries|
        invariant pushed == old(pushed) + AllEntryJobs(fs, excluded, entries[..i])
        invariant sent == old(sent) + AllEntryMessages(fs, path, entries[..i])
      {
        OneMoreEntry(fs, excluded, path, entries, i);
        Appended(old(pushed), AllEntryJobs(fs, excluded, entries[..i]), EntryJobs(fs, excluded, entries[i]));
        Appended(old(sent), AllEntryMessages(fs, path, entries[..i]), EntryMessages(fs, path, entries[i]));
        RunEntry(path, entries[i]);
      }
    }

    method RunEntry(dir: Path, entry: DirEntry)
      modifies this
      ensures pushed == old(pushed) + EntryJobs(fs, excluded, entry)
      ensures sent == old(sent) + EntryMessages(fs, dir, entry)
    {
      match entry
      case Unreadable => sent := sent + [CannotRead(dir)];
      case DirEntry(path) =>
        match KindAt(fs, path) {
          case Directory =>
            if path !in excluded { pushed := pushed + [path]; }
          case Regular => HandleFile(path);
          case Symlink => HandleSymlink(path);
          case Special => sent := sent + [NoFileOrDirectory(path)];
        }
    }
  }
}
