/** The mirror invariant over all runs of the backup client. */
module SyncMirror {
  import opened Text
  import opened FileTree
  import opened FileWatcher
  import opened Sync
  import opened SyncSteps
  import opened SyncHistory
  import opened SyncCounter
  import opened SyncOutages
  import opened SyncEvents

  // ----- the history -----

  lemma {:induction false} OnEventsLog(w: World, s: State, events: seq<Event>)
    requires VisitsLocal(w)
    ensures s.log <= OnEvents(w, s, events).log
    decreases |events|
  {
    if events != [] {
      OnEventsLog(w, s, events[..|events| - 1]);
      OnEventLog(w, OnEvents(w, s, events[..|events| - 1]), events[|events| - 1]);
    }
  }

  lemma OnEventsOneMore(w: World, s: State, events: seq<Event>, k: nat)
    requires VisitsLocal(w) && 0 < k <= |events|
    ensures OnEvents(w, s, events[..k]) == OnEvent(w, OnEvents(w, s, events[..k - 1]), events[k - 1])
    ensures events[k - 1..] == [events[k - 1]] + events[k..]
    ensures s.log <= OnEvents(w, s, events[..k - 1]).log <= OnEvents(w, s, events[..k]).log
  {
    assert events[..k][..k - 1] == events[..k - 1];
    OnEventLog(w, OnEvents(w, s, events[..k - 1]), events[k - 1]);
    OnEventsLog(w, s, events[..k - 1]);
  }

  lemma DoLog(sys: System, step: Step)
    requires StepRuns(step)
    ensures sys.state.log <= Do(sys, step).state.log
  {
    match step
    case TickStep(w, events) =>
      SyncIfDueLog(w, sys.state);
      OnEventsLog(w, SyncIfDue(w, sys.state), events);
    case ProbeStep(_) =>
  }

  lemma {:induction false} RunLog(sys: System, steps: seq<Step>)
    requires forall i :: 0 <= i < |steps| ==> StepRuns(steps[i])
    ensures sys.state.log <= RunSteps(sys, steps).state.log
    decreases |steps|
  {
    if steps != [] {
      RunLog(sys, steps[..|steps| - 1]);
      DoLog(RunSteps(sys, steps[..|steps| - 1]), steps[|steps| - 1]);
    }
  }

  // ----- what an operation leaves of the counter -----

  lemma SyncIfDueCounts(w: World, s: State)
    requires VisitsLocal(w) && Counts(s)
    ensures Counts(SyncIfDue(w, s))
  {
    if s.connection == 1 {
      CheckSyncCounts(w, s);
    }
  }

  lemma OnEventsCount(w: World, s: State, events: seq<Event>)
    requires VisitsLocal(w) && Counts(s)
    ensures Counts(OnEvents(w, s, events))
  {
    CountsKept();
    AllCallsHold(w, []);
    OnEventsStays(CountedStates(), AllCalls(), w, s, events);
    assert OnEvents(w, s, events) in CountedStates();
  }

  lemma StepCounts(sys: System, step: Step)
    requires StepRuns(step) && Counts(sys.state)
    ensures Counts(Do(sys, step).state)
  {
    CountsKept();
    match step
    case TickStep(w, events) =>
      SyncIfDueCounts(w, sys.state);
      OnEventsCount(w, SyncIfDue(w, sys.state), events);
    case ProbeStep(ok) =>
      assert Attempted(sys.state, Probing(Idle), Hello("reconnect"), ok) in CountedStates();
  }

  // ----- the events of a scan -----

  lemma ScanFits(root: Path, seen: Local, w: World, events: seq<Event>)
    requires GoodLocal(root, seen) && IsScan(TimesOf(seen), TimesOf(w.local), events)
    ensures forall e :: e in events ==> EventFits(root, w, e)
    ensures forall q :: q in seen && q !in w.local ==> Event(q, Erased) in events
  {
    var was, now := TimesOf(seen), TimesOf(w.local);
    forall e | e in events
      ensures EventFits(root, w, e)
    {
      assert Due(was, now, e.path) == Some(e.status);
    }
    forall q | q in seen && q !in w.local
      ensures Event(q, Erased) in events
    {
      assert Due(was, now, Event(q, Erased).path) == Some(Erased);
    }
  }

  lemma QuietPathsUnchanged(seen: Local, w: World, events: seq<Event>)
    requires Follows(seen, w.local) && IsScan(TimesOf(seen), TimesOf(w.local), events)
    ensures forall p :: p in w.local && !Coming(events, p) ==> p in seen && seen[p].node == w.local[p].node
  {
    var was, now := TimesOf(seen), TimesOf(w.local);
    forall p | p in w.local && !Coming(events, p)
      ensures p in seen && seen[p].node == w.local[p].node
    {
      assert Due(was, now, Event(p, FileStatus.Created).path) != Some(FileStatus.Created);
      assert Due(was, now, Event(p, Modified).path) != Some(Modified);
    }
  }

  /** Before event `k`. */
  ghost predicate SoundAt(root: Path, w: World, stale: iset<Path>, s: State, events: seq<Event>, k: nat)
    requires VisitsLocal(w) && k <= |events|
  {
    Sound(root, w, stale, OnEvents(w, s, events[..k]), events[k..])
  }

  /** At the request of event `k`. */
  ghost predicate ReadyAt(root: Path, w: World, stale: iset<Path>, s: State, events: seq<Event>, k: nat)
    requires VisitsLocal(w) && k < |events|
  {
    Ready(root, w, stale, Tested(w, OnEvents(w, s, events[..k])), events[k..])
  }

  ghost predicate HarmlessAt(root: Path, w: World, stale: iset<Path>, s: State, events: seq<Event>, k: nat)
    requires VisitsLocal(w) && k < |events|
  {
    Harmless(root, w, stale, OnEvents(w, s, events[..k]), events[k], events[k + 1..])
  }

  /** The invariant holds between all events of a scan, and at the request of each. */
  ghost predicate EventsSound(root: Path, w: World, stale: iset<Path>, s: State, events: seq<Event>, n: nat)
    requires VisitsLocal(w) && n <= |events|
  {
    && (forall k :: 0 <= k <= n ==> SoundAt(root, w, stale, s, events, k))
    && (forall k :: 0 <= k < n ==> ReadyAt(root, w, stale, s, events, k))
  }

  ghost predicate EventsHarmless(root: Path, w: World, stale: iset<Path>, s: State, events: seq<Event>, n: nat)
    requires VisitsLocal(w) && n <= |events|
  {
    forall k :: 0 <= k < n ==> HarmlessAt(root, w, stale, s, events, k)
  }

  lemma EventAtExactly(root: Path, w: World, stale: iset<Path>, s: State, events: seq<Event>, k: nat)
    requires VisitsLocal(w) && GoodLocal(root, w.local) && OncePerPath(events) && k < |events|
    requires EventFits(root, w, events[k]) && Counts(s) && SoundAt(root, w, stale, s, events, k)
    ensures ReadyAt(root, w, stale, s, events, k) && SoundAt(root, w, stale, s, events, k + 1)
            <==> HarmlessAt(root, w, stale, s, events, k)
  {
    OnEventsOneMore(w, s, events, k + 1);
    OnEventsCount(w, s, events[..k]);
    assert events[k] !in events[k + 1..];
    EventExactly(root, w, stale, OnEvents(w, s, events[..k]), events[k], events[k + 1..]);
  }

  lemma SoundOneMore(root: Path, w: World, stale: iset<Path>, s: State, events: seq<Event>, n: nat)
    requires VisitsLocal(w) && n < |events|
    ensures EventsSound(root, w, stale, s, events, n + 1) <==>
            && EventsSound(root, w, stale, s, events, n)
            && ReadyAt(root, w, stale, s, events, n) && SoundAt(root, w, stale, s, events, n + 1)
    ensures EventsSound(root, w, stale, s, events, n) ==> SoundAt(root, w, stale, s, events, n)
  {
  }

  lemma HarmlessOneMore(root: Path, w: World, stale: iset<Path>, s: State, events: seq<Event>, n: nat)
    requires VisitsLocal(w) && n < |events|
    ensures EventsHarmless(root, w, stale, s, events, n + 1) <==>
            EventsHarmless(root, w, stale, s, events, n) && HarmlessAt(root, w, stale, s, events, n)
  {
  }

  lemma {:induction false} EventsExactly(
    root: Path, w: World, stale: iset<Path>, s: State, events: seq<Event>, n: nat)
    requires VisitsLocal(w) && GoodLocal(root, w.local) && OncePerPath(events) && n <= |events|
    requires forall e :: e in events ==> EventFits(root, w, e)
    requires Counts(s) && SoundAt(root, w, stale, s, events, 0)
    ensures EventsSound(root, w, stale, s, events, n) <==> EventsHarmless(root, w, stale, s, events, n)
    decreases n
  {
    if n > 0 {
      EventsExactly(root, w, stale, s, events, n - 1);
      EventNextExactly(root, w, stale, s, events, n - 1);
    } else {
      NoEventsYet(root, w, stale, s, events);
    }
  }

  lemma NoEventsYet(root: Path, w: World, stale: iset<Path>, s: State, events: seq<Event>)
    requires VisitsLocal(w) && SoundAt(root, w, stale, s, events, 0)
    ensures EventsSound(root, w, stale, s, events, 0) && EventsHarmless(root, w, stale, s, events, 0)
  {
  }

  lemma EventNextExactly(root: Path, w: World, stale: iset<Path>, s: State, events: seq<Event>, n: nat)
    requires VisitsLocal(w) && GoodLocal(root, w.local) && OncePerPath(events) && n < |events|
    requires EventFits(root, w, events[n]) && Counts(s)
    requires EventsSound(root, w, stale, s, events, n) <==> EventsHarmless(root, w, stale, s, events, n)
    ensures EventsSound(root, w, stale, s, events, n + 1) <==> EventsHarmless(root, w, stale, s, events, n + 1)
  {
    SoundOneMore(root, w, stale, s, events, n);
    HarmlessOneMore(root, w, stale, s, events, n);
    if SoundAt(root, w, stale, s, events, n) {
      EventAtExactly(root, w, stale, s, events, n);
    }
  }

  // ----- a turn of the main loop -----

  /** The invariant holds at every moment of a turn: when its events begin, between them, and at
      the request of each. */
  ghost predicate TickSound(root: Path, w: World, stale: iset<Path>, s: State, events: seq<Event>)
    requires VisitsLocal(w)
  {
    && Ready(root, w, stale, SyncIfDue(w, s), events)
    && EventsSound(root, w, stale, SyncIfDue(w, s), events, |events|)
  }

  /** No checksync of the turn leaves anything undone, and no probe meets a window that matters. */
  ghost predicate TickHarmless(root: Path, w: World, stale: iset<Path>, s: State, events: seq<Event>)
    requires VisitsLocal(w)
  {
    && TestHarmless(root, w, stale, s, events)
    && EventsHarmless(root, w, stale, SyncIfDue(w, s), events, |events|)
  }

  /** From a boundary: the scan names every difference from what was seen. */
  lemma ScanBegins(root: Path, stale: iset<Path>, seen: Local, s: State, w: World, events: seq<Event>)
    requires Boundary(root, w.hash, stale, seen, s) && GoodLocal(root, seen) && Follows(seen, w.local)
    requires IsScan(TimesOf(seen), TimesOf(w.local), events)
    ensures Sound(root, w, stale, s, events) && forall e :: e in events ==> EventFits(root, w, e)
  {
    ScanFits(root, seen, w, events);
    QuietPathsUnchanged(seen, w, events);
    if s.connection >= 2 {
      forall p | p in w.local && !Coming(events, p)
        ensures BackedAt(w.hash, s.server, w.local, p)
      {
        assert BackedAt(w.hash, s.server, seen, p);
      }
    }
  }

  lemma ScanEnds(root: Path, w: World, stale: iset<Path>, s: State)
    requires Sound(root, w, stale, s, [])
    ensures Boundary(root, w.hash, stale, w.local, s)
    ensures Current(w, s, []) ==> Mirrors(root, w.hash, stale, w.local, s)
  {
    assert forall p :: !Coming([], p);
  }

  lemma TickExactly(root: Path, stale: iset<Path>, seen: Local, s: State, w: World, events: seq<Event>)
    requires VisitsLocal(w) && GoodLocal(root, w.local) && GoodLocal(root, seen) && Counts(s)
    requires Boundary(root, w.hash, stale, seen, s) && Follows(seen, w.local)
    requires IsScan(TimesOf(seen), TimesOf(w.local), events)
    ensures TickSound(root, w, stale, s, events) <==> TickHarmless(root, w, stale, s, events)
    ensures TickSound(root, w, stale, s, events) ==> Boundary(root, w.hash, stale, w.local, Tick(w, s, events))
  {
    var s1 := SyncIfDue(w, s);
    ScanBegins(root, stale, seen, s, w, events);
    TestExactly(root, w, stale, s, events);
    SyncIfDueCounts(w, s);
    assert events[..0] == [] && events[0..] == events;
    if Ready(root, w, stale, s1, events) {
      EventsExactly(root, w, stale, s1, events, |events|);
    }
    if TickSound(root, w, stale, s, events) {
      assert events[..|events|] == events && events[|events|..] == [];
      assert SoundAt(root, w, stale, s1, events, |events|);
      ScanEnds(root, w, stale, Tick(w, s, events));
    }
  }

  // ----- all runs -----

  ghost predicate StepSound(root: Path, stale: iset<Path>, s: State, step: Step)
    requires StepRuns(step)
  {
    step.TickStep? ==> TickSound(root, step.w, stale, s, step.events)
  }

  ghost predicate StepHarmless(root: Path, stale: iset<Path>, s: State, step: Step)
    requires StepRuns(step)
  {
    step.TickStep? ==> TickHarmless(root, step.w, stale, s, step.events)
  }

  /** The invariant holds at every moment of a run. */
  ghost predicate RunSound(root: Path, hash: string -> string, stale: iset<Path>, sys: System, steps: seq<Step>)
    requires forall i :: 0 <= i < |steps| ==> StepRuns(steps[i])
  {
    var after := RunSteps(sys, steps);
    && Boundary(root, hash, stale, after.seen, after.state)
    && (steps != [] ==>
          var k := |steps| - 1;
          && RunSound(root, hash, stale, sys, steps[..k])
          && StepSound(root, stale, RunSteps(sys, steps[..k]).state, steps[k]))
  }

  /** No checksync of a run leaves anything undone, and no probe meets a window that matters. */
  ghost predicate RunHarmless(root: Path, stale: iset<Path>, sys: System, steps: seq<Step>)
    requires forall i :: 0 <= i < |steps| ==> StepRuns(steps[i])
  {
    steps != [] ==>
      var k := |steps| - 1;
      && RunHarmless(root, stale, sys, steps[..k])
      && StepHarmless(root, stale, RunSteps(sys, steps[..k]).state, steps[k])
  }

  lemma StepExactly(root: Path, hash: string -> string, stale: iset<Path>, sys: System, step: Step)
    requires GoodLocal(root, sys.seen) && Boundary(root, hash, stale, sys.seen, sys.state) && Counts(sys.state)
    requires StepRuns(step) && StepOk(root, hash, sys.seen, step)
    ensures GoodLocal(root, Do(sys, step).seen) && Counts(Do(sys, step).state)
    ensures StepSound(root, stale, sys.state, step) <==> StepHarmless(root, stale, sys.state, step)
    ensures StepSound(root, stale, sys.state, step) ==>
              Boundary(root, hash, stale, Do(sys, step).seen, Do(sys, step).state)
  {
    StepCounts(sys, step);
    match step
    case TickStep(w, events) => TickExactly(root, stale, sys.seen, sys.state, w, events);
    case ProbeStep(_) =>
  }

  /** Exactly when a run is safe: from wherever the invariant holds, with outages and probes
      anywhere, it holds at every moment of a run if and only if no checksync of the run leaves
      anything undone and no probe meets a window that matters. */
  lemma {:induction false} RunExactly(
    root: Path, hash: string -> string, stale: iset<Path>, sys: System, steps: seq<Step>)
    requires GoodLocal(root, sys.seen) && Boundary(root, hash, stale, sys.seen, sys.state) && Counts(sys.state)
    requires RunOk(root, hash, sys, steps)
    ensures GoodLocal(root, RunSteps(sys, steps).seen) && Counts(RunSteps(sys, steps).state)
    ensures RunSound(root, hash, stale, sys, steps) <==> RunHarmless(root, stale, sys, steps)
    decreases |steps|
  {
    if steps != [] {
      var k := |steps| - 1;
      assert StepRuns(steps[k]);
      RunExactly(root, hash, stale, sys, steps[..k]);
      var before := RunSteps(sys, steps[..k]);
      StepCounts(before, steps[k]);
      if RunSound(root, hash, stale, sys, steps[..k]) {
        StepExactly(root, hash, stale, before, steps[k]);
      }
    }
  }

  lemma {:induction false} SoundFromStart(
    root: Path, hash: string -> string, stale: iset<Path>, sys: System, steps: seq<Step>)
    requires forall i :: 0 <= i < |steps| ==> StepRuns(steps[i])
    ensures RunSound(root, hash, stale, sys, steps) ==> Boundary(root, hash, stale, sys.seen, sys.state)
    decreases |steps|
  {
    if steps != [] {
      SoundFromStart(root, hash, stale, sys, steps[..|steps| - 1]);
    }
  }

  // ----- calm runs -----

  /** An event that meets no outage inside a checksync and no probe in a window. */
  lemma EventCalm(root: Path, w: World, stale: iset<Path>, s: State, e: Event, rest: seq<Event>, n: nat)
    requires VisitsLocal(w) && GoodLocal(root, w.local) && EventFits(root, w, e) && e !in rest
    requires Sound(root, w, stale, s, [e] + rest) && Counts(s) && n <= |s.log|
    requires NoSyncOutage(OnEvent(w, s, e).log, n) && NoLateProbe(OnEvent(w, s, e).log, n)
    ensures Harmless(root, w, stale, s, e, rest)
  {
    var s0 := Waited(w, s, Early);
    OnEventLog(w, s, e);
    PrefixHasNoOutage(Tested(w, s).log, OnEvent(w, s, e).log, n);
    WaitedSound(root, w, stale, s, [e] + rest, Early);
    TestReadies(root, w, stale, s0, [e] + rest);
    WaitedCounts(w, s, Early);
    TestExactly(root, w, stale, s0, [e] + rest);
    NoWindowHarms(w, stale, Tested(w, s), e, rest, n);
  }

  lemma {:induction false} EventsCalm(
    root: Path, w: World, stale: iset<Path>, s: State, events: seq<Event>, k: nat, n: nat)
    requires VisitsLocal(w) && GoodLocal(root, w.local) && OncePerPath(events) && k <= |events|
    requires forall e :: e in events ==> EventFits(root, w, e)
    requires Counts(s) && SoundAt(root, w, stale, s, events, 0) && n <= |s.log|
    requires NoSyncOutage(OnEvents(w, s, events[..k]).log, n) && NoLateProbe(OnEvents(w, s, events[..k]).log, n)
    ensures EventsHarmless(root, w, stale, s, events, k) && SoundAt(root, w, stale, s, events, k)
    decreases k
  {
    if k > 0 {
      var s1, s2 := OnEvents(w, s, events[..k - 1]), OnEvents(w, s, events[..k]);
      var e, rest := events[k - 1], events[k..];
      OnEventsOneMore(w, s, events, k);
      PrefixHasNoOutage(s1.log, s2.log, n);
      NotLateInPrefix(s1.log, s2.log, n);
      EventsCalm(root, w, stale, s, events, k - 1, n);
      OnEventsCount(w, s, events[..k - 1]);
      assert e !in rest;
      EventCalm(root, w, stale, s1, e, rest, n);
      assert HarmlessAt(root, w, stale, s, events, k - 1);
      HarmlessOneMore(root, w, stale, s, events, k - 1);
      EventAtExactly(root, w, stale, s, events, k - 1);
    }
  }

  lemma TickCalm(root: Path, stale: iset<Path>, seen: Local, s: State, w: World, events: seq<Event>)
    requires VisitsLocal(w) && GoodLocal(root, w.local) && GoodLocal(root, seen) && Counts(s)
    requires Boundary(root, w.hash, stale, seen, s) && Follows(seen, w.local)
    requires IsScan(TimesOf(seen), TimesOf(w.local), events)
    requires NoSyncOutage(Tick(w, s, events).log, |s.log|) && NoLateProbe(Tick(w, s, events).log, |s.log|)
    ensures TickHarmless(root, w, stale, s, events)
  {
    var s1 := SyncIfDue(w, s);
    ScanBegins(root, stale, seen, s, w, events);
    OnEventsLog(w, s1, events);
    SyncIfDueLog(w, s);
    PrefixHasNoOutage(s1.log, Tick(w, s, events).log, |s.log|);
    TestReadies(root, w, stale, s, events);
    TestExactly(root, w, stale, s, events);
    SyncIfDueCounts(w, s);
    assert events[..|events|] == events && events[..0] == [] && events[0..] == events;
    EventsCalm(root, w, stale, s1, events, |events|, |s.log|);
  }

  /** A run without outage inside a checksync, and without a probe in a window, is harmless. */
  lemma {:induction false} CalmIsHarmless(
    root: Path, hash: string -> string, stale: iset<Path>, sys: System, steps: seq<Step>)
    requires GoodLocal(root, sys.seen) && Boundary(root, hash, stale, sys.seen, sys.state) && Counts(sys.state)
    requires RunOk(root, hash, sys, steps)
    requires NoSyncOutage(RunSteps(sys, steps).state.log, |sys.state.log|)
    requires NoLateProbe(RunSteps(sys, steps).state.log, |sys.state.log|)
    ensures RunHarmless(root, stale, sys, steps)
    decreases |steps|
  {
    if steps != [] {
      var k, n := |steps| - 1, |sys.state.log|;
      var before := RunSteps(sys, steps[..k]);
      assert StepRuns(steps[k]);
      DoLog(before, steps[k]);
      RunLog(sys, steps[..k]);
      PrefixHasNoOutage(before.state.log, Do(before, steps[k]).state.log, n);
      NotLateInPrefix(before.state.log, Do(before, steps[k]).state.log, n);
      CalmIsHarmless(root, hash, stale, sys, steps[..k]);
      RunExactly(root, hash, stale, sys, steps[..k]);
      if steps[k].TickStep? {
        TickCalm(root, stale, before.seen, before.state, steps[k].w, steps[k].events);
      }
    }
  }

  // ----- from the login on -----

  lemma {:induction false} LoggedInState(server: Tree, logins: nat)
    ensures var s := LoggedIn(server, logins);
            s.server == server && s.deleted == [] && s.connection == 1 + logins && |s.log| == logins
    ensures Counts(LoggedIn(server, logins))
  {
    if logins > 0 {
      LoggedInState(server, logins - 1);
      CountOneMore(LoggedIn(server, logins - 1).log, Attempt(Probing(Idle), Hello("login"), true));
    }
  }

  /** What the user's tree holds below the root besides the watched paths. */
  ghost function Strangers(root: Path, local: Local, server: Tree): iset<Path> {
    Strays(root, local, LoggedIn(server, 0))
  }

  /** If the last two attempts up to the end of the first checksync connect, it leaves every local
      path backed up. */
  ghost predicate BeginHarmless(w: World, server: Tree, logins: nat)
    requires VisitsLocal(w)
  {
    var s := LoggedIn(server, logins);
    ConnectedTwice(CheckSync(w, s).log) ==> forall q :: q in w.local ==> Repaired(w, s, q)
  }

  lemma BeginSwept(root: Path, w: World, server: Tree, logins: nat)
    ensures Swept(root, w, Strangers(root, w.local, server), LoggedIn(server, logins))
  {
    LoggedInState(server, logins);
    LoggedInState(server, 0);
  }

  lemma BeginOnline(root: Path, w: World, server: Tree, logins: nat)
    requires VisitsLocal(w) && GoodLocal(root, w.local) && GoodServer(root, server)
    requires NoSyncOutage(Begin(w, server, logins).state.log, logins)
    ensures BeginHarmless(w, server, logins)
  {
    var s := LoggedIn(server, logins);
    LoggedInState(server, logins);
    CheckSyncOnline(root, w, s);
    forall q | q in w.local
      ensures Repaired(w, s, q)
    {
      BackedExactly(root, w, s, q);
    }
  }

  lemma BeginExactly(root: Path, w: World, server: Tree, logins: nat)
    requires VisitsLocal(w) && GoodLocal(root, w.local) && GoodServer(root, server)
    ensures Counts(Begin(w, server, logins).state)
    ensures Boundary(root, w.hash, Strangers(root, w.local, server), w.local, Begin(w, server, logins).state)
            <==> BeginHarmless(w, server, logins)
  {
    var s := LoggedIn(server, logins);
    LoggedInState(server, logins);
    CheckSyncCounts(w, s);
    BeginSwept(root, w, server, logins);
    BoundaryExactly(root, w, Strangers(root, w.local, server), s);
  }

  /** Mirror invariant, exactly: over every run, with outages and probes anywhere, from any good
      tree on the server.  At every moment the server holds below the root watched and queued
      paths only, but for what was on it unwatched when the run began, and mirrors the watched
      tree whenever the counter is at least two: if and only if no checksync of the run leaves
      anything undone and no probe meets a window that matters. */
  lemma MirrorInvariant(root: Path, w0: World, server: Tree, logins: nat, steps: seq<Step>)
    requires WorldOk(root, w0.hash, w0) && GoodServer(root, server)
    requires RunOk(root, w0.hash, Begin(w0, server, logins), steps)
    ensures var start, stale := Begin(w0, server, logins), Strangers(root, w0.local, server);
            var after := RunSteps(start, steps);
      && GoodLocal(root, after.seen) && Counts(after.state)
      && (RunSound(root, w0.hash, stale, start, steps) <==>
          BeginHarmless(w0, server, logins) && RunHarmless(root, stale, start, steps))
      && (RunSound(root, w0.hash, stale, start, steps) ==>
          Boundary(root, w0.hash, stale, after.seen, after.state))
  {
    var start, stale := Begin(w0, server, logins), Strangers(root, w0.local, server);
    BeginExactly(root, w0, server, logins);
    SoundFromStart(root, w0.hash, stale, start, steps);
    SeenIsGood(root, w0.hash, start, steps);
    RunCounts(w0, server, logins, steps);
    if BeginHarmless(w0, server, logins) {
      RunExactly(root, w0.hash, stale, start, steps);
    }
  }

  /** In particular the invariant holds over every run whose outages lie outside checksyncs and
      whose probes lie outside the two windows. */
  lemma CalmRunMirrors(root: Path, w0: World, server: Tree, logins: nat, steps: seq<Step>)
    requires WorldOk(root, w0.hash, w0) && GoodServer(root, server)
    requires RunOk(root, w0.hash, Begin(w0, server, logins), steps)
    requires NoSyncOutage(RunSteps(Begin(w0, server, logins), steps).state.log, 0)
    requires NoLateProbe(RunSteps(Begin(w0, server, logins), steps).state.log, 0)
    ensures var start, stale := Begin(w0, server, logins), Strangers(root, w0.local, server);
            RunSound(root, w0.hash, stale, start, steps)
  {
    var start := Begin(w0, server, logins);
    RunLog(start, steps);
    PrefixHasNoOutage(start.state.log, RunSteps(start, steps).state.log, 0);
    BeginOnline(root, w0, server, logins);
    BeginExactly(root, w0, server, logins);
    CalmIsHarmless(root, w0.hash, Strangers(root, w0.local, server), start, steps);
    MirrorInvariant(root, w0, server, logins, steps);
  }

  lemma {:induction false} SeenIsGood(root: Path, hash: string -> string, sys: System, steps: seq<Step>)
    requires GoodLocal(root, sys.seen) && RunOk(root, hash, sys, steps)
    ensures GoodLocal(root, RunSteps(sys, steps).seen)
    decreases |steps|
  {
    if steps != [] {
      SeenIsGood(root, hash, sys, steps[..|steps| - 1]);
      assert StepRuns(steps[|steps| - 1]);
    }
  }

  // ----- healing -----

  /** Whatever happened before, even outages inside checksyncs and probes in the windows: once the
      counter is below two the invariant holds, but for what is then on the server neither watched
      nor queued; and it stays, mirror included, at every moment of the rest of the run, if and
      only if that is harmless; as it is without outage inside a checksync and without probe in
      a window. */
  lemma Heals(root: Path, w0: World, server: Tree, logins: nat, before: seq<Step>, steps: seq<Step>)
    requires WorldOk(root, w0.hash, w0) && GoodServer(root, server)
    requires RunOk(root, w0.hash, Begin(w0, server, logins), before)
    requires var sys := RunSteps(Begin(w0, server, logins), before);
             sys.state.connection < 2 && RunOk(root, w0.hash, sys, steps)
    ensures var sys := RunSteps(Begin(w0, server, logins), before);
            var stale, log := Strays(root, sys.seen, sys.state), RunSteps(sys, steps).state.log;
      && Boundary(root, w0.hash, stale, sys.seen, sys.state)
      && (RunSound(root, w0.hash, stale, sys, steps) <==> RunHarmless(root, stale, sys, steps))
      && (NoSyncOutage(log, |sys.state.log|) && NoLateProbe(log, |sys.state.log|) ==>
          RunSound(root, w0.hash, stale, sys, steps))
  {
    var sys := RunSteps(Begin(w0, server, logins), before);
    var stale, log := Strays(root, sys.seen, sys.state), RunSteps(sys, steps).state.log;
    SeenIsGood(root, w0.hash, Begin(w0, server, logins), before);
    ServerStaysGood(root, w0, server, logins, before);
    RunCounts(w0, server, logins, before);
    RunExactly(root, w0.hash, stale, sys, steps);
    if NoSyncOutage(log, |sys.state.log|) && NoLateProbe(log, |sys.state.log|) {
      CalmIsHarmless(root, w0.hash, stale, sys, steps);
    }
  }

  // ----- a turn online -----

  /** From entry `n` of the history on no attempt has failed. */
  predicate NoFailureFrom(log: seq<Entry>, n: nat) {
    forall i :: n <= i < |log| && log[i].Attempt? ==> log[i].ok
  }

  lemma PrefixHasNoFailure(a: seq<Entry>, b: seq<Entry>, n: nat)
    requires a <= b && NoFailureFrom(b, n)
    ensures NoFailureFrom(a, n)
  {
    assert forall i :: 0 <= i < |a| ==> a[i] == b[i];
  }

  /** While connected the action makes its request at once. */
  lemma ReactOnline(w: World, s: State, e: Event, n: nat)
    requires s.connection >= 1 && (e.status != Erased ==> e.path in w.local)
    requires NoFailureFrom(React(w, s, e).log, n) && n <= |s.log|
    ensures React(w, s, e).connection == s.connection + 1
  {
    WaitedKeeps(w, s, Late);
    if e.status == Erased {
      var s1 := DeletePath(w, s, Watching, e.path);
      WaitedKeeps(w, s1, Unqueued(e.path));
      PrefixHasNoFailure(s1.log, React(w, s, e).log, n);
      assert s1.log[|s.log|] == Attempt(Watching, Remove(e.path), w.up(|s.log|));
    } else {
      var put := Put(e.path, LocalContent(w, e.path));
      assert React(w, s, e).log[|s.log|] == Attempt(Watching, put, w.up(|s.log|));
    }
  }

  lemma EventOnline(root: Path, w: World, stale: iset<Path>, s: State, e: Event, rest: seq<Event>, n: nat)
    requires VisitsLocal(w) && GoodLocal(root, w.local) && EventFits(root, w, e) && e !in rest
    requires Sound(root, w, stale, s, [e] + rest) && s.connection >= 1
    requires NoFailureFrom(OnEvent(w, s, e).log, n) && n <= |s.log|
    ensures Sound(root, w, stale, OnEvent(w, s, e), rest) && OnEvent(w, s, e).connection > s.connection
  {
    OnEventLog(w, s, e);
    PrefixHasNoFailure(Tested(w, s).log, OnEvent(w, s, e).log, n);
    WaitedKeeps(w, s, Early);
    TestReadies(root, w, stale, s, [e] + rest);
    ReactOnline(w, Tested(w, s), e, n);
    if e.status == Erased {
      DeleteSound(root, w, stale, Tested(w, s), e, rest);
      DeletesOnline(w, Tested(w, s), e.path);
    } else {
      PostSound(root, w, stale, Tested(w, s), e, rest);
    }
  }

  /** A removal that connects does not slip the queue. */
  lemma DeletesOnline(w: World, s: State, p: Path)
    requires s.connection >= 1 && React(w, s, Event(p, Erased)).connection == s.connection + 1
    ensures !SlipsQueue(w, Waited(w, s, Late), p)
  {
    var s1 := Waited(w, s, Late);
    WaitedKeeps(w, s, Late);
    WaitedKeeps(w, DeletePath(w, s1, Watching, p), Unqueued(p));
  }

  lemma {:induction false} EventsOnline(
    root: Path, w: World, stale: iset<Path>, s: State, events: seq<Event>, k: nat, n: nat)
    requires VisitsLocal(w) && GoodLocal(root, w.local) && OncePerPath(events) && k <= |events|
    requires forall e :: e in events ==> EventFits(root, w, e)
    requires SoundAt(root, w, stale, s, events, 0) && s.connection >= 1
    requires NoFailureFrom(OnEvents(w, s, events[..k]).log, n) && n <= |s.log|
    ensures SoundAt(root, w, stale, s, events, k)
    ensures OnEvents(w, s, events[..k]).connection >= s.connection + k
    decreases k
  {
    if k > 0 {
      var s1, s2 := OnEvents(w, s, events[..k - 1]), OnEvents(w, s, events[..k]);
      OnEventsOneMore(w, s, events, k);
      PrefixHasNoFailure(s1.log, s2.log, n);
      EventsOnline(root, w, stale, s, events, k - 1, n);
      assert events[k - 1] !in events[k..];
      EventOnline(root, w, stale, s1, events[k - 1], events[k..], n);
    }
  }

  /** Wherever the invariant holds: a tick that begins connected and meets no failure ends with a
      mirror of the tree it scanned. */
  lemma TickOnline(root: Path, stale: iset<Path>, seen: Local, s: State, w: World, events: seq<Event>)
    requires VisitsLocal(w) && GoodLocal(root, w.local) && GoodLocal(root, seen)
    requires Boundary(root, w.hash, stale, seen, s) && Follows(seen, w.local)
    requires IsScan(TimesOf(seen), TimesOf(w.local), events)
    requires s.connection >= 1 && NoFailureFrom(Tick(w, s, events).log, |s.log|)
    ensures Mirrors(root, w.hash, stale, w.local, Tick(w, s, events))
  {
    var s1 := SyncIfDue(w, s);
    ScanBegins(root, stale, seen, s, w, events);
    OnEventsLog(w, s1, events);
    SyncIfDueLog(w, s);
    PrefixHasNoFailure(s1.log, Tick(w, s, events).log, |s.log|);
    TestReadies(root, w, stale, s, events);
    assert events[..|events|] == events && events[..0] == [] && events[0..] == events;
    assert events[|events|..] == [];
    EventsOnline(root, w, stale, s1, events, |events|, |s.log|);
    assert SoundAt(root, w, stale, s1, events, |events|);
    ScanEnds(root, w, stale, Tick(w, s, events));
  }

  /** So in every harmless run a tick that begins connected and meets no failure ends with a mirror,
      whatever was erased, changed or created again while offline. */
  lemma OnlineTickMirrors(root: Path, w0: World, server: Tree, logins: nat, steps: seq<Step>, w: World,
                          events: seq<Event>)
    requires WorldOk(root, w0.hash, w0) && GoodServer(root, server)
    requires RunOk(root, w0.hash, Begin(w0, server, logins), steps)
    requires StepOk(root, w0.hash, RunSteps(Begin(w0, server, logins), steps).seen, TickStep(w, events))
    requires BeginHarmless(w0, server, logins)
    requires RunHarmless(root, Strangers(root, w0.local, server), Begin(w0, server, logins), steps)
    requires var s := RunSteps(Begin(w0, server, logins), steps).state;
             s.connection >= 1 && NoFailureFrom(Tick(w, s, events).log, |s.log|)
    ensures Mirrors(root, w0.hash, Strangers(root, w0.local, server), w.local,
                    Tick(w, RunSteps(Begin(w0, server, logins), steps).state, events))
  {
    var sys := RunSteps(Begin(w0, server, logins), steps);
    MirrorInvariant(root, w0, server, logins, steps);
    TickOnline(root, Strangers(root, w0.local, server), sys.seen, sys.state, w, events);
  }

  /** Recovery: whatever happened before, even outages inside checksyncs and probes in the windows, a
      tick that begins with the counter at one and meets no failure ends with a mirror, but for
      what was then on the server neither watched nor queued. */
  lemma OnlineTickRecovers(root: Path, w0: World, server: Tree, logins: nat, before: seq<Step>, w: World,
                           events: seq<Event>)
    requires WorldOk(root, w0.hash, w0) && GoodServer(root, server)
    requires RunOk(root, w0.hash, Begin(w0, server, logins), before)
    requires StepOk(root, w0.hash, RunSteps(Begin(w0, server, logins), before).seen, TickStep(w, events))
    requires var s := RunSteps(Begin(w0, server, logins), before).state;
             s.connection == 1 && NoFailureFrom(Tick(w, s, events).log, |s.log|)
    ensures var sys := RunSteps(Begin(w0, server, logins), before);
            Mirrors(root, w0.hash, Strays(root, sys.seen, sys.state), w.local, Tick(w, sys.state, events))
  {
    var sys := RunSteps(Begin(w0, server, logins), before);
    Heals(root, w0, server, logins, before, []);
    SeenIsGood(root, w0.hash, Begin(w0, server, logins), before);
    TickOnline(root, Strays(root, sys.seen, sys.state), sys.seen, sys.state, w, events);
  }

  // ----- what a mirror is -----

  /** The subtree strictly below the root, as what each path holds. */
  function Below(root: Path, t: Tree): Tree { map q | q in t && root < q :: t[q] }

  function StoredTree(local: Local): Tree { map p | p in local :: Stored(local[p].node) }

  function NodesOf(local: Local): Tree { map p | p in local :: local[p].node }

  ghost predicate Injective(hash: string -> string) { forall a, b :: hash(a) == hash(b) ==> a == b }

  predicate SentinelFree(n: Node) { n.File? ==> !Contains(n.content, SENTINEL) }

  predicate NoSentinels(local: Local) { forall p :: p in local ==> SentinelFree(local[p].node) }

  lemma BackedIsStored(hash: string -> string, t: Tree, seen: Local, p: Path)
    requires Clean(t) && p in seen && BackedAt(hash, t, seen, p) && Injective(hash)
    ensures t[p] == Stored(seen[p].node)
  {
    if seen[p].node.File? {
      FramedSpec(seen[p].node.content);
    }
  }

  lemma StoredIsNode(local: Local, p: Path)
    requires p in local
    ensures Stored(local[p].node) == local[p].node <==> SentinelFree(local[p].node)
  {
    if local[p].node.File? {
      FramedSpec(local[p].node.content);
    }
  }

  lemma StoredTreeIsLocal(local: Local)
    ensures StoredTree(local) == NodesOf(local) <==> NoSentinels(local)
  {
    var t, u := StoredTree(local), NodesOf(local);
    forall p | p in local
      ensures t[p] == u[p] <==> SentinelFree(local[p].node)
    {
      StoredIsNode(local, p);
    }
    if NoSentinels(local) {
      assert forall p :: p in local ==> t[p] == u[p];
      assert t == u;
    }
  }

  lemma MirrorPointwise(root: Path, hash: string -> string, seen: Local, s: State)
    requires Clean(s.server) && Mirrors(root, hash, iset{}, seen, s) && Injective(hash)
    ensures forall p :: p in seen ==> p in s.server && s.server[p] == Stored(seen[p].node)
  {
    forall p | p in seen
      ensures p in s.server && s.server[p] == Stored(seen[p].node)
    {
      assert BackedAt(hash, s.server, seen, p);
      BackedIsStored(hash, s.server, seen, p);
    }
  }

  lemma BelowIsStored(root: Path, t: Tree, seen: Local)
    requires GoodLocal(root, seen)
    requires forall p :: p in seen ==> p in t && t[p] == Stored(seen[p].node)
    requires forall q :: q in t && root < q ==> q in seen
    ensures Below(root, t) == StoredTree(seen)
  {
  }

  /** With an injective digest a mirror is the watched tree with every content cut at its first
      sentinel; so it is the watched tree exactly when no watched file holds a sentinel. */
  lemma MirrorIsLocalTree(root: Path, hash: string -> string, seen: Local, s: State)
    requires GoodLocal(root, seen) && Clean(s.server) && Mirrors(root, hash, iset{}, seen, s) && Injective(hash)
    ensures Below(root, s.server) == StoredTree(seen)
    ensures Below(root, s.server) == NodesOf(seen) <==> NoSentinels(seen)
  {
    MirrorPointwise(root, hash, seen, s);
    BelowIsStored(root, s.server, seen);
    StoredTreeIsLocal(seen);
  }

  /** A harmless run, begun with nothing unwatched and no sentinel on the server, whose counter is at
      least two. */
  lemma HarmlessRunMirrors(root: Path, w0: World, server: Tree, logins: nat, steps: seq<Step>)
    requires WorldOk(root, w0.hash, w0) && GoodServer(root, server) && Clean(server)
    requires forall q :: q in server && root < q ==> q in w0.local
    requires RunOk(root, w0.hash, Begin(w0, server, logins), steps)
    requires BeginHarmless(w0, server, logins) && RunHarmless(root, iset{}, Begin(w0, server, logins), steps)
    requires RunSteps(Begin(w0, server, logins), steps).state.connection >= 2
    ensures var sys := RunSteps(Begin(w0, server, logins), steps);
            GoodLocal(root, sys.seen) && Clean(sys.state.server)
            && Mirrors(root, w0.hash, iset{}, sys.seen, sys.state)
  {
    assert Strangers(root, w0.local, server) == iset{};
    MirrorInvariant(root, w0, server, logins, steps);
    ServerStaysClean(w0, server, logins, steps);
  }
}
