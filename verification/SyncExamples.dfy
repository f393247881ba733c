/** Four runs, from the login on: two that an outage inside a checksync spoils, and two that a
    reconnect probe in the middle of an action spoils. */
module SyncExamples {
  import opened Text
  import opened FileTree
  import opened Store
  import opened FileWatcher
  import opened Sync
  import opened SyncHistory

  /** A world that visits its tree in the order `ps`, fails the attempts for which `down` holds and
      lets a probe succeed where `wakes` holds; an unanswered GET leaves a status that calls for
      nothing. */
  function Outage(hash: string -> string, local: Local, ps: seq<Path>, down: nat -> bool,
                  wakes: (nat, Moment) -> bool): World
  {
    World(hash, local, (n: nat) => ps, (n: nat) => !down(n), (n: nat) => false,
          (n: nat, m: Moment) => if wakes(n, m) then [true] else [])
  }

  lemma NoWake(w: World, s: State, m: Moment)
    requires w.timer(|s.log|, m) == []
    ensures Waited(w, s, m) == s
  {
  }

  lemma OneWake(w: World, s: State, m: Moment)
    requires w.timer(|s.log|, m) == [true] && s.connection == 0
    ensures var r := Waited(w, s, m);
            r.server == s.server && r.deleted == s.deleted && r.connection == 1 && |r.log| == |s.log| + 1
  {
    assert [true][..0] == [];
    assert Probes(s, m, [true]) == Probe(s, m, true);
  }

  /** What later steps need to know of a state. */
  predicate Is(s: State, server: Tree, deleted: seq<Path>, connection: int, attempts: nat) {
    s.server == server && s.deleted == deleted && s.connection == connection && |s.log| == attempts
  }

  // ----- a deletion forgotten -----

  const FILE_A: Path := ["a.txt"]

  function OneFile(): Local { map[FILE_A := LocalNode(File(""), 0)] }

  /** What the server is left with. */
  function Stale1(): Tree { map[[] := Dir, FILE_A := File("")] }

  function Watching1(hash: string -> string): World {
    Outage(hash, OneFile(), [FILE_A], (n: nat) => n == 4 || n == 7, (n: nat, m: Moment) => false)
  }

  function Erased1(hash: string -> string): World {
    Outage(hash, map[], [], (n: nat) => n == 4 || n == 7, (n: nat, m: Moment) => false)
  }

  /** The file is erased while the server is down; the probe succeeds; the connection is lost
      again before the queue is replayed. */
  function LosingSteps(hash: string -> string): seq<Step> {
    [TickStep(Erased1(hash), [Event(FILE_A, Erased)]), ProbeStep(true), TickStep(Erased1(hash), [])]
  }

  lemma NameOfA()
    ensures NameExtension("a.txt") != "" && Framed("") == ""
  {
    LastOfUnique("a.txt", '.', '.', 1);
    FramedSpec("");
  }

  lemma UploadA()
    ensures Upload(map[], FILE_A, Framed("")).tree == Stale1()
  {
    NameOfA();
    assert Parent(FILE_A) == [];
    assert AddDirs(map[], []) == map[[] := Dir];
  }

  lemma OneLogin()
    ensures Is(LoggedIn(map[], 1), map[], [], 2, 1)
  {
    assert LoggedIn(map[], 1).log == LoggedIn(map[], 0).log + [Attempt(Probing(Idle), Hello("login"), true)];
  }

  lemma FirstPost(hash: string -> string, s: State)
    requires Is(s, map[], [], 2, 2)
    ensures Is(CheckPath(Watching1(hash), s, FILE_A), Stale1(), [], 4, 4)
  {
    var w := Watching1(hash);
    UploadA();
    var s1 := Compared(w, s, FILE_A);
    assert Is(s1, map[], [], 3, 3) && Stale(w, s, FILE_A);
    assert Is(SyncSend(w, s1, Put(FILE_A, "")), Stale1(), [], 4, 4);
  }

  lemma BeginWatching(hash: string -> string)
    ensures VisitsLocal(Watching1(hash))
    ensures Is(Begin(Watching1(hash), map[], 1).state, Stale1(), [], 4, 4)
  {
    var w, s := Watching1(hash), LoggedIn(map[], 1);
    OneLogin();
    assert Drain(w, Marked(s), []) == Marked(s);
    assert Is(Drained(w, s), map[], [], 2, 2);
    FirstPost(hash, Drained(w, s));
    assert [FILE_A][..0] == [];
    assert CheckAll(w, Drained(w, s), [FILE_A]) == CheckPath(w, Drained(w, s), FILE_A);
  }

  lemma LosingEvents(hash: string -> string, s: State)
    requires Is(s, Stale1(), [], 4, 4)
    ensures VisitsLocal(Erased1(hash))
    ensures Is(Tick(Erased1(hash), s, [Event(FILE_A, Erased)]), Stale1(), [FILE_A], 0, 5)
  {
    var w := Erased1(hash);
    assert [Event(FILE_A, Erased)][..0] == [];
    assert OnEvents(w, s, [Event(FILE_A, Erased)]) == OnEvent(w, s, Event(FILE_A, Erased));
  }

  lemma LosingSync(hash: string -> string, s: State)
    requires Is(s, Stale1(), [FILE_A], 1, 6)
    ensures VisitsLocal(Erased1(hash))
    ensures Is(Tick(Erased1(hash), s, []), Stale1(), [], 0, 8)
  {
    var w := Erased1(hash);
    assert [FILE_A][..0] == [];
    assert Drain(w, Marked(s), [FILE_A]) == SyncSend(w, Marked(s), Remove(FILE_A));
  }

  lemma OneFileGood()
    ensures GoodLocal([], OneFile()) && GoodLocal([], map[])
  {
    NameOfA();
  }

  lemma OneMoreStep(root: Path, hash: string -> string, sys: System, steps: seq<Step>, step: Step, all: seq<Step>)
    requires RunOk(root, hash, sys, steps) && StepRuns(step) && all == steps + [step]
    requires StepOk(root, hash, RunSteps(sys, steps).seen, step)
    ensures RunOk(root, hash, sys, all) && RunSteps(sys, all) == Do(RunSteps(sys, steps), step)
  {
    assert all[..|steps|] == steps;
  }

  lemma StepByStep(root: Path, hash: string -> string, sys: System, a: Step, b: Step, c: Step,
                   one: seq<Step>, two: seq<Step>, three: seq<Step>)
    requires StepRuns(a) && StepRuns(b) && StepRuns(c)
    requires one == [] + [a] && two == one + [b] && three == two + [c]
    requires StepOk(root, hash, sys.seen, a) && StepOk(root, hash, Do(sys, a).seen, b)
    requires StepOk(root, hash, Do(Do(sys, a), b).seen, c)
    ensures RunOk(root, hash, sys, three) && RunSteps(sys, three) == Do(Do(Do(sys, a), b), c)
  {
    OneMoreStep(root, hash, sys, [], a, one);
    OneMoreStep(root, hash, sys, one, b, two);
    OneMoreStep(root, hash, sys, two, c, three);
  }

  lemma ThreeSteps(root: Path, hash: string -> string, sys: System, a: Step, b: Step, c: Step, steps: seq<Step>)
    requires StepRuns(a) && StepRuns(b) && StepRuns(c) && steps == [] + [a] + [b] + [c]
    requires StepOk(root, hash, sys.seen, a) && StepOk(root, hash, Do(sys, a).seen, b)
    requires StepOk(root, hash, Do(Do(sys, a), b).seen, c)
    ensures RunOk(root, hash, sys, steps) && RunSteps(sys, steps) == Do(Do(Do(sys, a), b), c)
  {
    StepByStep(root, hash, sys, a, b, c, [] + [a], [] + [a] + [b], steps);
  }

  lemma Listing(a: Step, b: Step, c: Step)
    ensures [a, b, c] == [] + [a] + [b] + [c]
  {
  }

  lemma LosingScans()
    ensures IsScan(TimesOf(OneFile()), TimesOf(map[]), [Event(FILE_A, Erased)])
    ensures IsScan(TimesOf(map[]), TimesOf(map[]), [])
  {
    forall e: Event
      ensures e in [Event(FILE_A, Erased)] <==> Due(TimesOf(OneFile()), TimesOf(map[]), e.path) == Some(e.status)
    {
      assert e in [Event(FILE_A, Erased)] <==> e == Event(FILE_A, Erased);
    }
  }

  lemma LosingRun(hash: string -> string)
    ensures VisitsLocal(Watching1(hash)) && VisitsLocal(Erased1(hash))
    ensures var start := Begin(Watching1(hash), map[], 1);
            && RunOk([], hash, start, LosingSteps(hash))
            && RunSteps(start, LosingSteps(hash)).seen == map[]
            && Is(RunSteps(start, LosingSteps(hash)).state, Stale1(), [], 0, 8)
  {
    var start := Begin(Watching1(hash), map[], 1);
    var steps := LosingSteps(hash);
    BeginWatching(hash);
    LosingEvents(hash, start.state);
    var s1 := Do(start, steps[0]).state;
    var s2 := Probe(s1, Idle, true);
    LosingSync(hash, s2);
    OneFileGood();
    LosingScans();
    Listing(steps[0], steps[1], steps[2]);
    ThreeSteps([], hash, start, steps[0], steps[1], steps[2], steps);
  }

  /** An outage inside a checksync loses a deletion: a run from the login on after which a file
      that is neither watched nor queued is on the server, and there it stays in every longer
      run, until a path of its name is watched again. */
  lemma OutageLosesDeletion(hash: string -> string, later: seq<Step>)
    ensures VisitsLocal(Watching1(hash))
    ensures var start := Begin(Watching1(hash), map[], 1);
            RunOk([], hash, start, LosingSteps(hash))
    ensures var sys := RunSteps(Begin(Watching1(hash), map[], 1), LosingSteps(hash));
            && FILE_A in sys.state.server && FILE_A !in sys.seen && sys.state.deleted == []
            && (RunOk([], hash, sys, later)
                && (forall i :: 0 <= i < |later| && later[i].TickStep? ==> FILE_A !in later[i].w.local)
                ==> FILE_A in RunSteps(sys, later).state.server)
  {
    LosingRun(hash);
    var sys := RunSteps(Begin(Watching1(hash), map[], 1), LosingSteps(hash));
    if RunOk([], hash, sys, later)
       && forall i :: 0 <= i < |later| && later[i].TickStep? ==> FILE_A !in later[i].w.local {
      NothingAboveA(hash, sys, later);
      StaysUntilWatched([], hash, sys, later, FILE_A);
    }
  }

  lemma NothingAboveA(hash: string -> string, sys: System, later: seq<Step>)
    requires RunOk([], hash, sys, later)
    requires forall i :: 0 <= i < |later| && later[i].TickStep? ==> FILE_A !in later[i].w.local
    ensures forall i, p :: 0 <= i < |later| && later[i].TickStep? && p in later[i].w.local ==> !(p <= FILE_A)
  {
    forall i, p | 0 <= i < |later| && later[i].TickStep? && p in later[i].w.local
      ensures !(p <= FILE_A)
    {
      RunWorld([], hash, sys, later, i);
      assert [] < p;
      assert p <= FILE_A ==> p == FILE_A;
    }
  }

  // ----- a path skipped -----

  const DIR_A: Path := ["a"]
  const DIR_B: Path := ["b"]

  function TwoDirs(): Local { map[DIR_A := LocalNode(Dir, 0), DIR_B := LocalNode(Dir, 0)] }

  function Watching2(hash: string -> string): World {
    Outage(hash, map[], [], (n: nat) => n == 2 || n == 3 || n == 6, (n: nat, m: Moment) => false)
  }

  function Created2(hash: string -> string): World {
    Outage(hash, TwoDirs(), [DIR_A, DIR_B], (n: nat) => n == 2 || n == 3 || n == 6, (n: nat, m: Moment) => false)
  }

  /** Two directories are created while the server is down; the probe succeeds; the comparison of
      the first one fails again. */
  function SkippingSteps(hash: string -> string): seq<Step> {
    [TickStep(Created2(hash), [Event(DIR_A, FileStatus.Created), Event(DIR_B, FileStatus.Created)]),
     ProbeStep(true), TickStep(Created2(hash), [])]
  }

  lemma BeginEmpty(hash: string -> string)
    ensures VisitsLocal(Watching2(hash))
    ensures Is(Begin(Watching2(hash), map[], 1).state, map[], [], 2, 2)
  {
    OneLogin();
    assert Is(Marked(LoggedIn(map[], 1)), map[], [], 2, 2);
  }

  lemma CreatedOffline(hash: string -> string, s: State, p: Path)
    requires p in TwoDirs() && s.server == map[] && s.deleted == [] && s.connection != 1
    requires |s.log| == 2 || |s.log| == 3
    ensures VisitsLocal(Created2(hash))
    ensures Is(OnEvent(Created2(hash), s, Event(p, FileStatus.Created)), map[], [], 0, |s.log| + 1)
  {
  }

  lemma SkippingEvents(hash: string -> string, s: State)
    requires Is(s, map[], [], 2, 2)
    ensures VisitsLocal(Created2(hash))
    ensures var events := [Event(DIR_A, FileStatus.Created), Event(DIR_B, FileStatus.Created)];
            Is(Tick(Created2(hash), s, events), map[], [], 0, 4)
  {
    var w := Created2(hash);
    var e, f := Event(DIR_A, FileStatus.Created), Event(DIR_B, FileStatus.Created);
    assert [e, f][..1] == [e] && [e][..0] == [];
    CreatedOffline(hash, s, DIR_A);
    assert OnEvents(w, s, [e]) == OnEvent(w, s, e);
    CreatedOffline(hash, OnEvent(w, s, e), DIR_B);
    assert OnEvents(w, s, [e, f]) == OnEvent(w, OnEvent(w, s, e), f);
  }

  lemma NamesOfDirs()
    ensures NameExtension("a") == "" && NameExtension("b") == "" && DIR_A != DIR_B && !(DIR_A <= DIR_B)
  {
    LastOfSpec("a", '.', '.');
    LastOfSpec("b", '.', '.');
    assert DIR_A[0] == "a" && DIR_B[0] == "b" && "a"[0] != "b"[0];
  }

  lemma SkippingSync(hash: string -> string, s: State)
    requires Is(s, map[], [], 1, 5)
    ensures VisitsLocal(Created2(hash))
    ensures Is(Tick(Created2(hash), s, []), map[[] := Dir, DIR_B := Dir], [], 2, 9)
  {
    var w := Created2(hash);
    NamesOfDirs();
    assert Is(Marked(s), map[], [], 1, 6) && Drained(w, s) == Marked(s);
    assert [DIR_A, DIR_B][..1] == [DIR_A] && [DIR_A][..0] == [];
    var s1 := CheckPath(w, Marked(s), DIR_A);
    assert Is(s1, map[], [], 0, 7);
    assert CheckAll(w, Marked(s), [DIR_A]) == s1;
    SecondPath(hash, s1);
    assert CheckAll(w, Marked(s), [DIR_A, DIR_B]) == CheckPath(w, s1, DIR_B);
  }

  lemma SecondPath(hash: string -> string, s: State)
    requires Is(s, map[], [], 0, 7)
    ensures Is(CheckPath(Created2(hash), s, DIR_B), map[[] := Dir, DIR_B := Dir], [], 2, 9)
  {
    var w, s1 := Created2(hash), Compared(Created2(hash), s, DIR_B);
    assert LocalContent(w, DIR_B) == "";
    NoWake(w, s, Within);
    assert Is(s1, map[], [], 1, 8) && Stale(w, s, DIR_B);
    NoWake(w, s1, Within);
    PutB(s1, Syncing);
    assert CheckPath(w, s, DIR_B) == Attempted(s1, Syncing, Put(DIR_B, ""), true);
  }

  /** A POST of the second directory that connects. */
  lemma PutB(s: State, origin: Origin)
    requires s.server == map[]
    ensures var r := Attempted(s, origin, Put(DIR_B, ""), true);
            Is(r, map[[] := Dir, DIR_B := Dir], s.deleted, s.connection + 1, |s.log| + 1)
  {
    UploadB(s.server);
  }

  lemma SkippingScan()
    ensures var events := [Event(DIR_A, FileStatus.Created), Event(DIR_B, FileStatus.Created)];
            IsScan(TimesOf(map[]), TimesOf(TwoDirs()), events)
  {
    var e, f := Event(DIR_A, FileStatus.Created), Event(DIR_B, FileStatus.Created);
    NamesOfDirs();
    forall x: Event
      ensures x in [e, f] <==> Due(TimesOf(map[]), TimesOf(TwoDirs()), x.path) == Some(x.status)
    {
      assert x in [e, f] <==> x == e || x == f;
    }
  }

  lemma TwoDirsGood()
    ensures IsScan(TimesOf(TwoDirs()), TimesOf(TwoDirs()), [])
    ensures GoodLocal([], TwoDirs()) && GoodLocal([], map[])
  {
    NamesOfDirs();
  }

  lemma SkippingRun(hash: string -> string)
    ensures VisitsLocal(Watching2(hash)) && VisitsLocal(Created2(hash))
    ensures var start := Begin(Watching2(hash), map[], 1);
            && RunOk([], hash, start, SkippingSteps(hash))
            && RunSteps(start, SkippingSteps(hash)).seen == TwoDirs()
            && Is(RunSteps(start, SkippingSteps(hash)).state, map[[] := Dir, DIR_B := Dir], [], 2, 9)
  {
    var start := Begin(Watching2(hash), map[], 1);
    var steps := SkippingSteps(hash);
    BeginEmpty(hash);
    SkippingEvents(hash, start.state);
    var s2 := Probe(Do(start, steps[0]).state, Idle, true);
    SkippingSync(hash, s2);
    SkippingScan();
    TwoDirsGood();
    Listing(steps[0], steps[1], steps[2]);
    ThreeSteps([], hash, start, steps[0], steps[1], steps[2], steps);
  }

  /** An outage inside a checksync skips a path: a run from the login on whose counter is two
      although a watched path is missing on the server. */
  lemma OutageSkipsPath(hash: string -> string)
    ensures VisitsLocal(Watching2(hash))
    ensures var start := Begin(Watching2(hash), map[], 1);
            && RunOk([], hash, start, SkippingSteps(hash))
            && var sys := RunSteps(start, SkippingSteps(hash));
               sys.state.connection == 2 && DIR_A in sys.seen && DIR_A !in sys.state.server
  {
    SkippingRun(hash);
    NamesOfDirs();
  }

  // ----- a deletion that slips the queue -----

  function Watching3(hash: string -> string): World {
    Outage(hash, OneFile(), [FILE_A], (n: nat) => n == 4, (n: nat, m: Moment) => false)
  }

  /** The removal fails; a probe succeeds before the queue test. */
  function Erased3(hash: string -> string): World {
    Outage(hash, map[], [], (n: nat) => n == 4, (n: nat, m: Moment) => n == 5 && m.Unqueued?)
  }

  lemma BeginWatching3(hash: string -> string)
    ensures VisitsLocal(Watching3(hash))
    ensures Is(Begin(Watching3(hash), map[], 1).state, Stale1(), [], 4, 4)
  {
    var w, s := Watching3(hash), LoggedIn(map[], 1);
    OneLogin();
    assert Drain(w, Marked(s), []) == Marked(s);
    var s1 := Drained(w, s);
    assert Is(s1, map[], [], 2, 2);
    UploadA();
    assert Is(Compared(w, s1, FILE_A), map[], [], 3, 3) && Stale(w, s1, FILE_A);
    assert Is(CheckPath(w, s1, FILE_A), Stale1(), [], 4, 4);
    assert [FILE_A][..0] == [];
    assert CheckAll(w, s1, [FILE_A]) == CheckPath(w, s1, FILE_A);
  }

  lemma SlippingEvents(hash: string -> string, s: State)
    requires Is(s, Stale1(), [], 4, 4)
    ensures VisitsLocal(Erased3(hash))
    ensures Is(Tick(Erased3(hash), s, [Event(FILE_A, Erased)]), Stale1(), [], 1, 6)
  {
    var w := Erased3(hash);
    var s1 := DeletePath(w, s, Watching, FILE_A);
    assert [Event(FILE_A, Erased)][..0] == [];
    assert OnEvents(w, s, [Event(FILE_A, Erased)]) == OnEvent(w, s, Event(FILE_A, Erased));
    NoWake(w, s, Early);
    NoWake(w, s, Late);
    assert Is(s1, Stale1(), [], 0, 5);
    OneWake(w, s1, Unqueued(FILE_A));
  }

  lemma OneStep(root: Path, hash: string -> string, sys: System, step: Step)
    requires StepRuns(step) && StepOk(root, hash, sys.seen, step)
    ensures RunOk(root, hash, sys, [step]) && RunSteps(sys, [step]) == Do(sys, step)
  {
    assert [step] == [] + [step];
    OneMoreStep(root, hash, sys, [], step, [step]);
  }

  /** A probe between a failed removal and the queue test loses the deletion: a run after which a
      file that is neither watched nor queued is on the server. */
  lemma ProbeLosesDeletion(hash: string -> string)
    ensures VisitsLocal(Watching3(hash))
    ensures var step := TickStep(Erased3(hash), [Event(FILE_A, Erased)]);
            var start, steps := Begin(Watching3(hash), map[], 1), [step];
            && RunOk([], hash, start, steps)
            && var sys := RunSteps(start, steps);
               FILE_A in sys.state.server && FILE_A !in sys.seen && sys.state.deleted == []
  {
    var start, step := Begin(Watching3(hash), map[], 1), TickStep(Erased3(hash), [Event(FILE_A, Erased)]);
    BeginWatching3(hash);
    SlippingEvents(hash, start.state);
    OneFileGood();
    LosingScans();
    OneStep([], hash, start, step);
  }

  // ----- a checksync that is skipped -----

  function Watching4(hash: string -> string): World {
    Outage(hash, map[], [], (n: nat) => n == 2, (n: nat, m: Moment) => false)
  }

  /** The first request fails; a probe succeeds after the counter test before the second. */
  function Created4(hash: string -> string): World {
    Outage(hash, TwoDirs(), [DIR_A, DIR_B], (n: nat) => n == 2, (n: nat, m: Moment) => n == 3 && m.Late?)
  }

  lemma BeginEmpty4(hash: string -> string)
    ensures VisitsLocal(Watching4(hash))
    ensures Is(Begin(Watching4(hash), map[], 1).state, map[], [], 2, 2)
  {
    OneLogin();
    assert Is(Marked(LoggedIn(map[], 1)), map[], [], 2, 2);
  }

  lemma FirstFails(hash: string -> string, s: State)
    requires Is(s, map[], [], 2, 2)
    ensures VisitsLocal(Created4(hash))
    ensures Is(OnEvent(Created4(hash), s, Event(DIR_A, FileStatus.Created)), map[], [], 0, 3)
  {
    NoWake(Created4(hash), s, Early);
    NoWake(Created4(hash), s, Late);
  }

  lemma SecondSkips(hash: string -> string, s: State)
    requires Is(s, map[], [], 0, 3)
    ensures VisitsLocal(Created4(hash))
    ensures Is(OnEvent(Created4(hash), s, Event(DIR_B, FileStatus.Created)), map[[] := Dir, DIR_B := Dir], [], 2, 5)
  {
    var w, s1 := Created4(hash), Waited(Created4(hash), s, Late);
    NoWake(w, s, Early);
    OneWake(w, s, Late);
    PostB(hash, s1);
    PostsUntested(w, s, DIR_B);
  }

  lemma PostsUntested(w: World, s: State, p: Path)
    requires VisitsLocal(w) && Waited(w, s, Early) == s && s.connection != 1 && p in w.local
    ensures OnEvent(w, s, Event(p, FileStatus.Created)) == PostPath(w, Waited(w, s, Late), Watching, p)
  {
  }

  lemma PostB(hash: string -> string, s: State)
    requires Is(s, map[], [], 1, 4)
    ensures Is(PostPath(Created4(hash), s, Watching, DIR_B), map[[] := Dir, DIR_B := Dir], [], 2, 5)
  {
    var w := Created4(hash);
    assert LocalContent(w, DIR_B) == "" && w.up(4);
    PutB(s, Watching);
    assert PostPath(w, s, Watching, DIR_B) == Attempted(s, Watching, Put(DIR_B, ""), true);
  }

  lemma UploadB(t: Tree)
    requires t == map[]
    ensures Upload(t, DIR_B, Framed("")).tree == map[[] := Dir, DIR_B := Dir]
  {
    NamesOfDirs();
    assert !Blocked(t, DIR_B);
    forall q: Path
      ensures q in AddDirs(t, DIR_B) <==> q == [] || q == DIR_B
    {
      assert q <= DIR_B <==> q == [] || q == DIR_B;
    }
    assert AddDirs(t, DIR_B) == map[[] := Dir, DIR_B := Dir];
  }

  lemma SkippingEvents4(hash: string -> string, s: State)
    requires Is(s, map[], [], 2, 2)
    ensures VisitsLocal(Created4(hash))
    ensures Is(Tick(Created4(hash), s, [Event(DIR_A, FileStatus.Created), Event(DIR_B, FileStatus.Created)]),
               map[[] := Dir, DIR_B := Dir], [], 2, 5)
  {
    var w := Created4(hash);
    var e, f := Event(DIR_A, FileStatus.Created), Event(DIR_B, FileStatus.Created);
    assert [e, f][..1] == [e] && [e][..0] == [];
    FirstFails(hash, s);
    assert OnEvents(w, s, [e]) == OnEvent(w, s, e);
    SecondSkips(hash, OnEvent(w, s, e));
    assert OnEvents(w, s, [e, f]) == OnEvent(w, OnEvent(w, s, e), f);
  }

  /** A probe between the counter test and the request skips a checksync: a run whose counter is two
      although a watched path is missing on the server. */
  lemma ProbeSkipsSync(hash: string -> string)
    ensures VisitsLocal(Watching4(hash))
    ensures var events := [Event(DIR_A, FileStatus.Created), Event(DIR_B, FileStatus.Created)];
            var start, steps := Begin(Watching4(hash), map[], 1), [TickStep(Created4(hash), events)];
            && RunOk([], hash, start, steps)
            && var sys := RunSteps(start, steps);
               sys.state.connection == 2 && DIR_A in sys.seen && DIR_A !in sys.state.server
  {
    var events := [Event(DIR_A, FileStatus.Created), Event(DIR_B, FileStatus.Created)];
    var start, step := Begin(Watching4(hash), map[], 1), TickStep(Created4(hash), events);
    BeginEmpty4(hash);
    SkippingEvents4(hash, start.state);
    SkippingScan();
    TwoDirsGood();
    NamesOfDirs();
    OneStep([], hash, start, step);
  }
}
