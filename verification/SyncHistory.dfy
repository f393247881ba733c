/** What the history of a run determines, whatever connects: an induction principle for runs, and
    the server's tree. */
module SyncHistory {
  import opened Text
  import opened FileTree
  import opened Store
  import opened FileWatcher
  import opened Sync
  import opened SyncSteps

  // ----- an induction principle for runs -----

  /** `inv` survives every attempt at a call of `calls`, and a checksync that begins when the counter is
      one, and does not depend on the queue. */
  ghost predicate Kept(inv: iset<State>, calls: iset<Call>) {
    && (forall s, origin, call, ok :: s in inv && call in calls ==> Attempted(s, origin, call, ok) in inv)
    && (forall s :: s in inv && s.connection == 1 ==> Marked(s) in inv)
    && (forall s, xs :: s in inv ==> Queued(s, xs) in inv)
  }

  /** `inv` survives the beginning of any checksync. */
  ghost predicate Markable(inv: iset<State>) { forall s :: s in inv ==> Marked(s) in inv }

  function Queued(s: State, xs: seq<Path>): State { s.(deleted := xs) }

  /** In `inv`, with a queue that makes calls of `calls` only. */
  ghost predicate Stays(inv: iset<State>, calls: iset<Call>, s: State) {
    s in inv && forall i :: 0 <= i < |s.deleted| ==> Remove(s.deleted[i]) in calls
  }

  /** Probes and what is asked about the watched paths lie in `calls`. */
  ghost predicate LocalCalls(calls: iset<Call>, w: World) {
    && Hello("reconnect") in calls
    && forall p :: p in w.local ==> Get(p, LocalContent(w, p)) in calls && Put(p, LocalContent(w, p)) in calls
  }

  ghost predicate ErasureCalls(calls: iset<Call>, events: seq<Event>) {
    forall i :: 0 <= i < |events| && events[i].status == Erased ==> Remove(events[i].path) in calls
  }

  ghost predicate StepCalls(calls: iset<Call>, step: Step) {
    match step
    case TickStep(w, events) => LocalCalls(calls, w) && ErasureCalls(calls, events)
    case ProbeStep(_) => Hello("reconnect") in calls
  }

  lemma {:induction false} ProbesStay(inv: iset<State>, calls: iset<Call>, s: State, moment: Moment, oks: seq<bool>)
    requires Kept(inv, calls) && Hello("reconnect") in calls && s in inv
    ensures Probes(s, moment, oks) in inv
    decreases |oks|
  {
    if oks != [] {
      ProbesStay(inv, calls, s, moment, oks[..|oks| - 1]);
    }
  }

  lemma WaitedStays(inv: iset<State>, calls: iset<Call>, w: World, s: State, moment: Moment)
    requires Kept(inv, calls) && Hello("reconnect") in calls && s in inv
    ensures Waited(w, s, moment) in inv && Waited(w, s, moment).deleted == s.deleted
  {
    ProbesStay(inv, calls, s, moment, w.timer(|s.log|, moment));
    WaitedKeeps(w, s, moment);
  }

  lemma SyncSendStays(inv: iset<State>, calls: iset<Call>, w: World, s: State, call: Call)
    requires Kept(inv, calls) && Hello("reconnect") in calls && call in calls && s in inv
    ensures SyncSend(w, s, call) in inv
  {
    WaitedStays(inv, calls, w, s, Within);
  }

  lemma {:induction false} DrainStays(inv: iset<State>, calls: iset<Call>, w: World, s: State, xs: seq<Path>)
    requires Kept(inv, calls) && Hello("reconnect") in calls && s in inv
    requires forall i :: 0 <= i < |xs| ==> Remove(xs[i]) in calls
    ensures Drain(w, s, xs) in inv
    decreases |xs|
  {
    if xs != [] {
      DrainStays(inv, calls, w, s, xs[..|xs| - 1]);
      SyncSendStays(inv, calls, w, Drain(w, s, xs[..|xs| - 1]), Remove(xs[|xs| - 1]));
    }
  }

  lemma CheckPathStays(inv: iset<State>, calls: iset<Call>, w: World, s: State, p: Path)
    requires Kept(inv, calls) && LocalCalls(calls, w) && s in inv && p in w.local
    ensures CheckPath(w, s, p) in inv
  {
    SyncSendStays(inv, calls, w, s, Get(p, LocalContent(w, p)));
    SyncSendStays(inv, calls, w, Compared(w, s, p), Put(p, LocalContent(w, p)));
  }

  lemma {:induction false} CheckAllStays(inv: iset<State>, calls: iset<Call>, w: World, s: State, ps: seq<Path>)
    requires Kept(inv, calls) && LocalCalls(calls, w) && s in inv && Listed(ps, w.local)
    ensures CheckAll(w, s, ps) in inv && CheckAll(w, s, ps).deleted == s.deleted
    decreases |ps|
  {
    if ps != [] {
      CheckAllStays(inv, calls, w, s, ps[..|ps| - 1]);
      CheckPathStays(inv, calls, w, CheckAll(w, s, ps[..|ps| - 1]), ps[|ps| - 1]);
      CheckPathPosts(w, CheckAll(w, s, ps[..|ps| - 1]), ps[|ps| - 1]);
    }
  }

  /** A checksync, from where it has begun. */
  lemma CheckSyncGoesOn(inv: iset<State>, calls: iset<Call>, w: World, s: State)
    requires Kept(inv, calls) && LocalCalls(calls, w) && VisitsLocal(w) && Marked(s) in inv
    requires forall i :: 0 <= i < |s.deleted| ==> Remove(s.deleted[i]) in calls
    ensures CheckSync(w, s) in inv && CheckSync(w, s).deleted == []
  {
    DrainStays(inv, calls, w, Marked(s), s.deleted);
    assert Queued(Drain(w, Marked(s), s.deleted), []) in inv;
    CheckAllStays(inv, calls, w, Drained(w, s), w.visit(|s.log|));
  }

  lemma CheckSyncStays(inv: iset<State>, calls: iset<Call>, w: World, s: State)
    requires Kept(inv, calls) && LocalCalls(calls, w) && VisitsLocal(w) && Stays(inv, calls, s) && Marked(s) in inv
    ensures Stays(inv, calls, CheckSync(w, s)) && CheckSync(w, s).deleted == []
  {
    CheckSyncGoesOn(inv, calls, w, s);
  }

  lemma SyncIfDueStays(inv: iset<State>, calls: iset<Call>, w: World, s: State)
    requires Kept(inv, calls) && LocalCalls(calls, w) && VisitsLocal(w) && Stays(inv, calls, s)
    ensures Stays(inv, calls, SyncIfDue(w, s))
  {
    if s.connection == 1 {
      CheckSyncStays(inv, calls, w, s);
    }
  }

  lemma ReactStays(inv: iset<State>, calls: iset<Call>, w: World, s: State, e: Event)
    requires Kept(inv, calls) && LocalCalls(calls, w) && ErasureCalls(calls, [e]) && Stays(inv, calls, s)
    ensures Stays(inv, calls, React(w, s, e))
  {
    assert e == [e][0];
    var s1 := Waited(w, s, Late);
    WaitedStays(inv, calls, w, s, Late);
    if e.status == Erased {
      var s2 := DeletePath(w, s1, Watching, e.path);
      WaitedStays(inv, calls, w, s2, Unqueued(e.path));
      var s3 := Waited(w, s2, Unqueued(e.path));
      assert Queued(s3, s3.deleted + [e.path]) in inv;
    }
  }

  lemma OnEventStays(inv: iset<State>, calls: iset<Call>, w: World, s: State, e: Event)
    requires Kept(inv, calls) && LocalCalls(calls, w) && ErasureCalls(calls, [e]) && VisitsLocal(w)
    requires Stays(inv, calls, s)
    ensures Stays(inv, calls, OnEvent(w, s, e))
  {
    WaitedStays(inv, calls, w, s, Early);
    SyncIfDueStays(inv, calls, w, Waited(w, s, Early));
    ReactStays(inv, calls, w, SyncIfDue(w, Waited(w, s, Early)), e);
  }

  lemma {:induction false} OnEventsStays(
    inv: iset<State>, calls: iset<Call>, w: World, s: State, events: seq<Event>)
    requires Kept(inv, calls) && LocalCalls(calls, w) && ErasureCalls(calls, events) && VisitsLocal(w)
    requires Stays(inv, calls, s)
    ensures Stays(inv, calls, OnEvents(w, s, events))
    decreases |events|
  {
    if events != [] {
      OnEventsStays(inv, calls, w, s, events[..|events| - 1]);
      OnEventStays(inv, calls, w, OnEvents(w, s, events[..|events| - 1]), events[|events| - 1]);
    }
  }

  lemma DoStays(inv: iset<State>, calls: iset<Call>, sys: System, step: Step)
    requires Kept(inv, calls) && StepRuns(step) && StepCalls(calls, step) && Stays(inv, calls, sys.state)
    ensures Stays(inv, calls, Do(sys, step).state)
  {
    match step
    case TickStep(w, events) =>
      SyncIfDueStays(inv, calls, w, sys.state);
      OnEventsStays(inv, calls, w, SyncIfDue(w, sys.state), events);
    case ProbeStep(ok) =>
  }

  /** What every call of `calls` keeps holds after any steps that make calls of `calls` only, whatever
      connects. */
  lemma {:induction false} RunStays(inv: iset<State>, calls: iset<Call>, sys: System, steps: seq<Step>)
    requires Kept(inv, calls) && Stays(inv, calls, sys.state)
    requires forall i :: 0 <= i < |steps| ==> StepRuns(steps[i]) && StepCalls(calls, steps[i])
    ensures Stays(inv, calls, RunSteps(sys, steps).state)
    decreases |steps|
  {
    if steps != [] {
      RunStays(inv, calls, sys, steps[..|steps| - 1]);
      DoStays(inv, calls, RunSteps(sys, steps[..|steps| - 1]), steps[|steps| - 1]);
    }
  }

  lemma {:induction false} LoggedInStays(inv: iset<State>, calls: iset<Call>, server: Tree, logins: nat)
    requires Kept(inv, calls) && Hello("login") in calls && State(server, [], 1, []) in inv
    ensures Stays(inv, calls, LoggedIn(server, logins))
  {
    if logins > 0 {
      LoggedInStays(inv, calls, server, logins - 1);
    }
  }

  /** The same from the logins on. */
  lemma BeginStays(inv: iset<State>, calls: iset<Call>, w0: World, server: Tree, logins: nat, steps: seq<Step>)
    requires Kept(inv, calls) && Markable(inv) && State(server, [], 1, []) in inv
    requires Hello("login") in calls && LocalCalls(calls, w0) && VisitsLocal(w0)
    requires forall i :: 0 <= i < |steps| ==> StepRuns(steps[i]) && StepCalls(calls, steps[i])
    ensures Stays(inv, calls, RunSteps(Begin(w0, server, logins), steps).state)
  {
    LoggedInStays(inv, calls, server, logins);
    CheckSyncStays(inv, calls, w0, LoggedIn(server, logins));
    RunStays(inv, calls, Begin(w0, server, logins), steps);
  }

  // ----- the server's tree, read off the history -----

  function TreeAfter(t0: Tree, log: seq<Entry>): Tree {
    if log == [] then t0
    else
      var t := TreeAfter(t0, log[..|log| - 1]);
      match log[|log| - 1]
      case Attempt(_, call, ok) => if ok then Effect(t, call) else t
      case SyncStart(_) => t
  }

  ghost predicate LogCalls(calls: iset<Call>, log: seq<Entry>) {
    forall i :: 0 <= i < |log| && log[i].Attempt? ==> log[i].call in calls
  }

  /** The server holds what the history says, and the history holds calls of `calls` only. */
  ghost predicate Recorded(t0: Tree, calls: iset<Call>, s: State) {
    s.server == TreeAfter(t0, s.log) && LogCalls(calls, s.log)
  }

  ghost function RecordedStates(t0: Tree, calls: iset<Call>): iset<State> { iset s: State | Recorded(t0, calls, s) }

  lemma RecordedKept(t0: Tree, calls: iset<Call>)
    ensures Kept(RecordedStates(t0, calls), calls) && Markable(RecordedStates(t0, calls))
    ensures State(t0, [], 1, []) in RecordedStates(t0, calls)
  {
    forall s, origin, call, ok | Recorded(t0, calls, s) && call in calls
      ensures Recorded(t0, calls, Attempted(s, origin, call, ok))
    {
      OneMoreRecorded(t0, calls, s.log, Attempt(origin, call, ok));
    }
    forall s | Recorded(t0, calls, s)
      ensures Recorded(t0, calls, Marked(s))
    {
      OneMoreRecorded(t0, calls, s.log, SyncStart(s.deleted));
    }
  }

  lemma OneMoreRecorded(t0: Tree, calls: iset<Call>, log: seq<Entry>, e: Entry)
    requires LogCalls(calls, log) && (e.Attempt? ==> e.call in calls)
    ensures LogCalls(calls, log + [e])
    ensures var t := TreeAfter(t0, log);
            TreeAfter(t0, log + [e]) == if e.Attempt? && e.ok then Effect(t, e.call) else t
  {
    assert (log + [e])[..|log|] == log;
  }

  /** Over every run, whatever connects, the server holds what the history says. */
  lemma ServerIsRecorded(calls: iset<Call>, w0: World, server: Tree, logins: nat, steps: seq<Step>)
    requires Hello("login") in calls && LocalCalls(calls, w0) && VisitsLocal(w0)
    requires forall i :: 0 <= i < |steps| ==> StepRuns(steps[i]) && StepCalls(calls, steps[i])
    ensures RunSteps(Begin(w0, server, logins), steps).state in RecordedStates(server, calls)
  {
    RecordedKept(server, calls);
    RunIsIn(RecordedStates(server, calls), calls, w0, server, logins, steps);
  }

  lemma RunIsIn(inv: iset<State>, calls: iset<Call>, w0: World, server: Tree, logins: nat, steps: seq<Step>)
    requires Kept(inv, calls) && Markable(inv) && State(server, [], 1, []) in inv
    requires Hello("login") in calls && LocalCalls(calls, w0) && VisitsLocal(w0)
    requires forall i :: 0 <= i < |steps| ==> StepRuns(steps[i]) && StepCalls(calls, steps[i])
    ensures RunSteps(Begin(w0, server, logins), steps).state in inv
  {
    BeginStays(inv, calls, w0, server, logins, steps);
  }

  // ----- what the calls of a run are -----

  /** Every call about a path of the watched tree lies in `calls`. */
  ghost predicate WatchedCalls(calls: iset<Call>, w: World) {
    LocalCalls(calls, w) && forall p :: p in w.local ==> Remove(p) in calls
  }

  lemma {:induction false} SeenIsWatched(calls: iset<Call>, root: Path, hash: string -> string, sys: System,
                                         steps: seq<Step>)
    requires RunOk(root, hash, sys, steps) && forall p :: p in sys.seen ==> Remove(p) in calls
    requires forall i :: 0 <= i < |steps| && steps[i].TickStep? ==> WatchedCalls(calls, steps[i].w)
    ensures forall p :: p in RunSteps(sys, steps).seen ==> Remove(p) in calls
    decreases |steps|
  {
    if steps != [] {
      SeenIsWatched(calls, root, hash, sys, steps[..|steps| - 1]);
      assert StepRuns(steps[|steps| - 1]);
    }
  }

  lemma {:induction false} RunPrefix(root: Path, hash: string -> string, sys: System, steps: seq<Step>, i: nat)
    requires RunOk(root, hash, sys, steps) && i < |steps|
    ensures RunOk(root, hash, sys, steps[..i]) && StepRuns(steps[i])
    ensures StepOk(root, hash, RunSteps(sys, steps[..i]).seen, steps[i])
    decreases |steps|
  {
    if i < |steps| - 1 {
      RunPrefix(root, hash, sys, steps[..|steps| - 1], i);
      assert steps[..|steps| - 1][..i] == steps[..i];
    }
  }

  /** A run whose trees lie in `calls` makes calls of `calls` only: what is erased was seen. */
  lemma RunCalls(calls: iset<Call>, root: Path, hash: string -> string, sys: System, steps: seq<Step>)
    requires RunOk(root, hash, sys, steps) && Hello("reconnect") in calls
    requires forall p :: p in sys.seen ==> Remove(p) in calls
    requires forall i :: 0 <= i < |steps| && steps[i].TickStep? ==> WatchedCalls(calls, steps[i].w)
    ensures forall i :: 0 <= i < |steps| ==> StepCalls(calls, steps[i])
  {
    forall i | 0 <= i < |steps|
      ensures StepCalls(calls, steps[i])
    {
      RunPrefix(root, hash, sys, steps, i);
      SeenIsWatched(calls, root, hash, sys, steps[..i]);
      ScanCalls(calls, root, hash, RunSteps(sys, steps[..i]).seen, steps[i]);
    }
  }

  lemma ScanCalls(calls: iset<Call>, root: Path, hash: string -> string, seen: Local, step: Step)
    requires StepOk(root, hash, seen, step) && Hello("reconnect") in calls
    requires step.TickStep? ==> WatchedCalls(calls, step.w)
    requires forall p :: p in seen ==> Remove(p) in calls
    ensures StepCalls(calls, step)
  {
    match step
    case ProbeStep(_) =>
    case TickStep(w, events) =>
      forall i | 0 <= i < |events| && events[i].status == Erased
        ensures Remove(events[i].path) in calls
      {
        assert events[i] in events;
        assert Due(TimesOf(seen), TimesOf(w.local), events[i].path) == Some(events[i].status);
      }
  }

  // ----- a good server stays good -----

  /** Calls about paths that fit below the root. */
  ghost predicate CallFits(root: Path, call: Call) {
    match call
    case Put(p, _) => PathFits(root, p)
    case Remove(p) => root < p
    case _ => true
  }

  ghost function FittingCalls(root: Path): iset<Call> { iset call | CallFits(root, call) }

  /** A POST is answered "created". */
  predicate IsCreated(t: Tree, call: Call) {
    call.Put? ==>
      call.path != [] && Upload(t, call.path, Framed(call.content)).outcome == Reply(Status.Created)
  }

  /** Every POST of the history that connected was answered "created". */
  predicate AllCreated(t0: Tree, log: seq<Entry>) {
    forall i :: 0 <= i < |log| && log[i].Attempt? ==> IsCreated(TreeAfter(t0, log[..i]), log[i].call)
  }

  lemma EffectGood(root: Path, t: Tree, call: Call)
    requires GoodServer(root, t) && CallFits(root, call)
    ensures GoodServer(root, Effect(t, call)) && IsCreated(t, call)
  {
    match call
    case Put(p, content) => UploadFits(root, t, p, Framed(content));
    case Remove(p) => DeleteGood(root, t, p);
    case _ =>
  }

  lemma {:induction false} HistoryGood(root: Path, t0: Tree, log: seq<Entry>)
    requires GoodServer(root, t0) && LogCalls(FittingCalls(root), log)
    ensures GoodServer(root, TreeAfter(t0, log))
    decreases |log|
  {
    if log != [] {
      var k := |log| - 1;
      HistoryGood(root, t0, log[..k]);
      if log[k].Attempt? {
        EffectGood(root, TreeAfter(t0, log[..k]), log[k].call);
      }
    }
  }

  lemma HistoryCreated(root: Path, t0: Tree, log: seq<Entry>)
    requires GoodServer(root, t0) && LogCalls(FittingCalls(root), log)
    ensures AllCreated(t0, log)
  {
    forall i | 0 <= i < |log| && log[i].Attempt?
      ensures IsCreated(TreeAfter(t0, log[..i]), log[i].call)
    {
      HistoryGood(root, t0, log[..i]);
      EffectGood(root, TreeAfter(t0, log[..i]), log[i].call);
    }
  }

  lemma GoodLocalFits(root: Path, w: World)
    requires GoodLocal(root, w.local)
    ensures WatchedCalls(FittingCalls(root), w)
  {
    forall p | p in w.local
      ensures Put(p, LocalContent(w, p)) in FittingCalls(root) && Remove(p) in FittingCalls(root)
      ensures Get(p, LocalContent(w, p)) in FittingCalls(root)
    {
      LocalCallsFit(root, w, p);
    }
    assert Hello("reconnect") in FittingCalls(root);
  }

  lemma LocalCallsFit(root: Path, w: World, p: Path)
    requires GoodLocal(root, w.local) && p in w.local
    ensures Put(p, LocalContent(w, p)) in FittingCalls(root) && Remove(p) in FittingCalls(root)
    ensures Get(p, LocalContent(w, p)) in FittingCalls(root)
  {
    LocalFits(root, w.local, p);
  }

  /** Over every run, with outages anywhere: the server stays good, and every POST that
      connects is answered "created". */
  lemma ServerStaysGood(root: Path, w0: World, server: Tree, logins: nat, steps: seq<Step>)
    requires WorldOk(root, w0.hash, w0) && GoodServer(root, server)
    requires RunOk(root, w0.hash, Begin(w0, server, logins), steps)
    ensures var s := RunSteps(Begin(w0, server, logins), steps).state;
            GoodServer(root, s.server) && AllCreated(server, s.log)
  {
    var calls := FittingCalls(root);
    GoodLocalFits(root, w0);
    RunFits(root, w0, server, logins, steps);
    RunCalls(calls, root, w0.hash, Begin(w0, server, logins), steps);
    ServerIsRecorded(calls, w0, server, logins, steps);
    HistoryGood(root, server, RunSteps(Begin(w0, server, logins), steps).state.log);
    HistoryCreated(root, server, RunSteps(Begin(w0, server, logins), steps).state.log);
  }

  lemma RunFits(root: Path, w0: World, server: Tree, logins: nat, steps: seq<Step>)
    requires WorldOk(root, w0.hash, w0) && RunOk(root, w0.hash, Begin(w0, server, logins), steps)
    ensures forall i :: 0 <= i < |steps| && steps[i].TickStep? ==> WatchedCalls(FittingCalls(root), steps[i].w)
  {
    forall i | 0 <= i < |steps| && steps[i].TickStep?
      ensures WatchedCalls(FittingCalls(root), steps[i].w)
    {
      RunWorld(root, w0.hash, Begin(w0, server, logins), steps, i);
      GoodLocalFits(root, steps[i].w);
    }
  }

  lemma RunWorld(root: Path, hash: string -> string, sys: System, steps: seq<Step>, i: nat)
    requires RunOk(root, hash, sys, steps) && i < |steps|
    ensures steps[i].TickStep? ==> WorldOk(root, hash, steps[i].w)
  {
    RunPrefix(root, hash, sys, steps, i);
  }

  // ----- stored contents hold no sentinel -----

  lemma EffectClean(t: Tree, call: Call)
    requires Clean(t)
    ensures Clean(Effect(t, call))
  {
    if call.Put? && call.path != [] {
      FramedSpec(call.content);
      UploadClean(t, call.path, Framed(call.content));
    }
  }

  lemma UploadClean(t: Tree, p: Path, content: string)
    requires Clean(t) && p != [] && !Contains(content, SENTINEL)
    ensures Clean(Upload(t, p, content).tree)
  {
  }

  ghost function CleanStates(): iset<State> { iset s: State | Clean(s.server) }

  predicate AnyCall(call: Call) { true }

  ghost function AllCalls(): iset<Call> { iset call | AnyCall(call) }

  lemma AllCallsHold(w: World, steps: seq<Step>)
    ensures LocalCalls(AllCalls(), w) && Hello("login") in AllCalls()
    ensures forall i :: 0 <= i < |steps| ==> StepCalls(AllCalls(), steps[i])
  {
  }

  /** Requests never store a sentinel. */
  lemma CleanKept()
    ensures Kept(CleanStates(), AllCalls()) && Markable(CleanStates())
  {
    forall s: State, origin, call, ok | Clean(s.server)
      ensures Clean(Attempted(s, origin, call, ok).server)
    {
      EffectClean(s.server, call);
    }
  }

  lemma AllStepCalls(steps: seq<Step>)
    ensures forall i :: 0 <= i < |steps| ==> StepCalls(AllCalls(), steps[i])
    ensures forall x :: Remove(x) in AllCalls()
  {
  }

  /** A property that every call keeps holds over every run, whatever connects. */
  lemma AlwaysStays(inv: iset<State>, w0: World, server: Tree, logins: nat, steps: seq<Step>)
    requires Kept(inv, AllCalls()) && Markable(inv) && State(server, [], 1, []) in inv
    requires VisitsLocal(w0) && forall i :: 0 <= i < |steps| ==> StepRuns(steps[i])
    ensures RunSteps(Begin(w0, server, logins), steps).state in inv
  {
    AllCallsHold(w0, steps);
    RunIsIn(inv, AllCalls(), w0, server, logins, steps);
  }

  /** Over every run, whatever connects, the server stores no sentinel if it began with none. */
  lemma ServerStaysClean(w0: World, server: Tree, logins: nat, steps: seq<Step>)
    requires VisitsLocal(w0) && Clean(server)
    requires forall i :: 0 <= i < |steps| ==> StepRuns(steps[i])
    ensures Clean(RunSteps(Begin(w0, server, logins), steps).state.server)
  {
    CleanKept();
    AlwaysStays(CleanStates(), w0, server, logins, steps);
  }

  // ----- a path nothing takes away -----

  /** Calls that leave what stands at `x` standing: no removal and no file at or above it. */
  predicate CallSpares(x: Path, call: Call) {
    match call
    case Put(p, _) => p <= x && p != [] ==> NameExtension(Last(p)) == ""
    case Remove(p) => !(p <= x)
    case _ => true
  }

  ghost function SparingCalls(x: Path): iset<Call> { iset call | CallSpares(x, call) }

  ghost function Holding(x: Path): iset<State> { iset s: State | x in s.server }

  lemma SparedKept(x: Path)
    ensures Kept(Holding(x), SparingCalls(x))
  {
    forall s: State, origin, call, ok | x in s.server && CallSpares(x, call)
      ensures x in Attempted(s, origin, call, ok).server
    {
      match call
      case Put(p, _) =>
      case Remove(_) =>
      case _ =>
    }
  }

  /** Whatever connects: what stands on the server stays there as long as no removal and no
      file at or above it is queued, watched or reported erased. */
  lemma StaysOnServer(sys: System, steps: seq<Step>, x: Path)
    requires x in sys.state.server && forall i :: 0 <= i < |sys.state.deleted| ==> !(sys.state.deleted[i] <= x)
    requires forall i :: 0 <= i < |steps| ==> StepRuns(steps[i]) && StepCalls(SparingCalls(x), steps[i])
    ensures x in RunSteps(sys, steps).state.server
  {
    SparedKept(x);
    RunStays(Holding(x), SparingCalls(x), sys, steps);
  }

  /** In particular as long as nothing at or above it is watched again. */
  lemma StaysUntilWatched(root: Path, hash: string -> string, sys: System, steps: seq<Step>, x: Path)
    requires RunOk(root, hash, sys, steps) && x in sys.state.server
    requires forall i :: 0 <= i < |sys.state.deleted| ==> !(sys.state.deleted[i] <= x)
    requires forall p :: p in sys.seen ==> !(p <= x)
    requires forall i, p :: 0 <= i < |steps| && steps[i].TickStep? && p in steps[i].w.local ==> !(p <= x)
    ensures x in RunSteps(sys, steps).state.server
  {
    RunCalls(SparingCalls(x), root, hash, sys, steps);
    StaysOnServer(sys, steps, x);
  }
}
