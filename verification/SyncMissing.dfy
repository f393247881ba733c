/** What a run can leave undone, with outages and probes anywhere: no watched path is missing or
    out of date on the server unless a request about it has failed and none was made good since. */
module SyncMissing {
  import opened FileTree
  import opened FileWatcher
  import opened Sync
  import opened SyncSteps
  import opened SyncHistory
  import opened SyncEvents
  import opened SyncMirror

  /** A comparison or an upload of `p` fails. */
  predicate Fails(e: Entry, p: Path) { e.Attempt? && !e.ok && (e.call.Get? || e.call.Put?) && e.call.path == p }

  /** An upload of `p` or of something below it is delivered. */
  predicate Serves(e: Entry, p: Path) { e.Attempt? && e.ok && e.call.Put? && p <= e.call.path }

  /** A comparison or an upload of `p` has failed, and no upload that serves it was delivered since. */
  predicate Missed(log: seq<Entry>, p: Path) {
    exists i :: 0 <= i < |log| && Fails(log[i], p) && NeverServed(log, i + 1, p)
  }

  predicate NeverServed(log: seq<Entry>, n: nat, p: Path) { forall j :: n <= j < |log| ==> !Serves(log[j], p) }

  lemma StaysMissed(log: seq<Entry>, e: Entry, p: Path)
    requires Missed(log, p) && !Serves(e, p)
    ensures Missed(log + [e], p)
  {
    var i :| 0 <= i < |log| && Fails(log[i], p) && NeverServed(log, i + 1, p);
    var l := log + [e];
    assert l[i] == log[i] && forall j :: 0 <= j < |log| ==> l[j] == log[j];
    assert NeverServed(l, i + 1, p);
  }

  lemma JustMissed(log: seq<Entry>, e: Entry, p: Path)
    requires Fails(e, p)
    ensures Missed(log + [e], p)
  {
    var l := log + [e];
    assert Fails(l[|log|], p) && NeverServed(l, |log| + 1, p);
  }

  // ----- what requests keep -----

  /** The path is backed up, or missed. */
  predicate ServedAt(w: World, s: State, p: Path)
    requires p in w.local
  {
    BackedAt(w.hash, s.server, w.local, p) || Missed(s.log, p)
  }

  /** Every watched path but those still to be reported. */
  ghost predicate Served(root: Path, w: World, rest: seq<Event>, s: State) {
    GoodServer(root, s.server) && forall p :: p in w.local && !Coming(rest, p) ==> ServedAt(w, s, p)
  }

  ghost function ServedStates(root: Path, w: World, rest: seq<Event>): iset<State> {
    iset s: State | Served(root, w, rest, s)
  }

  /** Uploads of what is watched, and removals of nothing at or above a watched path. */
  predicate CallServes(w: World, call: Call) {
    match call
    case Put(p, content) => p in w.local && content == LocalContent(w, p)
    case Remove(x) => forall p :: p in w.local ==> !(x <= p)
    case _ => true
  }

  ghost function ServingCalls(w: World): iset<Call> { iset call | CallServes(w, call) }

  lemma EffectServes(root: Path, w: World, t: Tree, call: Call, p: Path)
    requires GoodLocal(root, w.local) && GoodServer(root, t) && CallServes(w, call) && p in w.local
    ensures GoodServer(root, Effect(t, call))
    ensures BackedAt(w.hash, Effect(t, call), w.local, p) <==>
            BackedAt(w.hash, t, w.local, p) || (call.Put? && p <= call.path)
  {
    match call
    case Put(q, _) =>
      UploadLocal(root, w.local, t, q);
      UploadedBacks(root, w.hash, w.local, t, Effect(t, call), q, p);
    case Remove(x) => DeleteGood(root, t, x);
    case _ =>
  }

  lemma EffectStaysGood(root: Path, w: World, t: Tree, call: Call)
    requires GoodLocal(root, w.local) && GoodServer(root, t) && CallServes(w, call)
    ensures GoodServer(root, Effect(t, call))
  {
    match call
    case Put(q, _) => UploadLocal(root, w.local, t, q);
    case Remove(x) => DeleteGood(root, t, x);
    case _ =>
  }

  lemma AttemptServes(root: Path, w: World, s: State, origin: Origin, call: Call, ok: bool, p: Path)
    requires GoodLocal(root, w.local) && GoodServer(root, s.server) && CallServes(w, call) && p in w.local
    requires ServedAt(w, s, p)
    ensures ServedAt(w, Attempted(s, origin, call, ok), p)
  {
    var e := Attempt(origin, call, ok);
    EffectServes(root, w, s.server, call, p);
    if Missed(s.log, p) && !Serves(e, p) {
      StaysMissed(s.log, e, p);
    }
  }

  lemma ServedKept(root: Path, w: World, rest: seq<Event>)
    requires GoodLocal(root, w.local)
    ensures Kept(ServedStates(root, w, rest), ServingCalls(w))
  {
    forall s: State, origin, call, ok | Served(root, w, rest, s) && CallServes(w, call)
      ensures Served(root, w, rest, Attempted(s, origin, call, ok))
    {
      EffectStaysGood(root, w, s.server, call);
      forall p | p in w.local && !Coming(rest, p)
        ensures ServedAt(w, Attempted(s, origin, call, ok), p)
      {
        AttemptServes(root, w, s, origin, call, ok, p);
      }
    }
    forall s: State | Served(root, w, rest, s)
      ensures Served(root, w, rest, Marked(s))
    {
      MarkedServes(root, w, rest, s);
    }
  }

  lemma MarkedServes(root: Path, w: World, rest: seq<Event>, s: State)
    requires Served(root, w, rest, s)
    ensures Served(root, w, rest, Marked(s))
  {
    forall p | p in w.local && !Coming(rest, p)
      ensures ServedAt(w, Marked(s), p)
    {
      if Missed(s.log, p) {
        StaysMissed(s.log, SyncStart(s.deleted), p);
      }
    }
  }

  lemma WaitedServes(root: Path, w: World, rest: seq<Event>, s: State, moment: Moment)
    requires GoodLocal(root, w.local) && Served(root, w, rest, s)
    ensures Served(root, w, rest, Waited(w, s, moment))
  {
    ServedKept(root, w, rest);
    WaitedStays(ServedStates(root, w, rest), ServingCalls(w), w, s, moment);
    assert Waited(w, s, moment) in ServedStates(root, w, rest);
  }

  // ----- a checksync -----

  /** The entry a request of a checksync leaves. */
  lemma SyncSendEntry(w: World, s: State, call: Call)
    ensures var r := SyncSend(w, s, call);
            r.log == Waited(w, s, Within).log + [Attempt(Syncing, call, Connects(w, s))]
  {
  }

  /** The comparison of a path accounts for it, whatever connects. */
  lemma CheckPathServes(root: Path, w: World, s: State, p: Path)
    requires GoodLocal(root, w.local) && GoodServer(root, s.server) && p in w.local
    ensures ServedAt(w, CheckPath(w, s, p), p) && GoodServer(root, CheckPath(w, s, p).server)
  {
    var s1 := Compared(w, s, p);
    var get, put := Get(p, LocalContent(w, p)), Put(p, LocalContent(w, p));
    CheckPathAny(root, w, s, p);
    if !Posted(w, s, p) {
      SyncSendEntry(w, s, get);
      SyncSendEntry(w, s1, put);
      if Stale(w, s, p) {
        JustMissed(Waited(w, s1, Within).log, Attempt(Syncing, put, false), p);
      } else if Connects(w, s) {
        AcceptedIsBacked(root, w, s.server, p);
      } else {
        JustMissed(Waited(w, s, Within).log, Attempt(Syncing, get, false), p);
      }
    }
  }

  /** The comparisons that follow keep the account of a path. */
  lemma CheckPathKeeps(root: Path, w: World, s: State, p: Path, q: Path)
    requires GoodLocal(root, w.local) && GoodServer(root, s.server) && p in w.local && q in w.local
    requires ServedAt(w, s, q)
    ensures ServedAt(w, CheckPath(w, s, p), q)
  {
    SyncSendServes(root, w, s, Get(p, LocalContent(w, p)), q);
    ComparedReads(w, s, p);
    SyncSendServes(root, w, Compared(w, s, p), Put(p, LocalContent(w, p)), q);
  }

  lemma SyncSendServes(root: Path, w: World, s: State, call: Call, q: Path)
    requires GoodLocal(root, w.local) && GoodServer(root, s.server) && CallServes(w, call) && q in w.local
    requires ServedAt(w, s, q)
    ensures ServedAt(w, SyncSend(w, s, call), q)
  {
    var s1 := Waited(w, s, Within);
    ProbesServe(root, w, s, Within, w.timer(|s.log|, Within), q);
    AttemptServes(root, w, s1, Syncing, call, w.up(|s1.log|), q);
  }

  lemma {:induction false} ProbesServe(
    root: Path, w: World, s: State, moment: Moment, oks: seq<bool>, q: Path)
    requires GoodLocal(root, w.local) && GoodServer(root, s.server) && q in w.local && ServedAt(w, s, q)
    ensures GoodServer(root, Probes(s, moment, oks).server) && ServedAt(w, Probes(s, moment, oks), q)
    decreases |oks|
  {
    ProbesKeep(s, moment, oks);
    if oks != [] {
      var k := |oks| - 1;
      ProbesServe(root, w, s, moment, oks[..k], q);
      ProbeServes(root, w, Probes(s, moment, oks[..k]), moment, oks[k], q);
    }
  }

  lemma ProbeServes(root: Path, w: World, s: State, moment: Moment, ok: bool, q: Path)
    requires GoodLocal(root, w.local) && GoodServer(root, s.server) && q in w.local && ServedAt(w, s, q)
    ensures ServedAt(w, Probe(s, moment, ok), q)
  {
    if s.connection == 0 {
      AttemptServes(root, w, s, Probing(moment), Hello("reconnect"), ok, q);
    }
  }

  lemma {:induction false} CheckAllServes(root: Path, w: World, s: State, ps: seq<Path>, q: Path)
    requires GoodLocal(root, w.local) && GoodServer(root, s.server) && Listed(ps, w.local)
    ensures GoodServer(root, CheckAll(w, s, ps).server)
    ensures q in ps && q in w.local ==> ServedAt(w, CheckAll(w, s, ps), q)
    decreases |ps|
  {
    if ps != [] {
      var k := |ps| - 1;
      var s1 := CheckAll(w, s, ps[..k]);
      CheckAllServes(root, w, s, ps[..k], q);
      CheckPathServes(root, w, s1, ps[k]);
      if q in ps[..k] && q in w.local {
        CheckPathKeeps(root, w, s1, ps[k], q);
      }
      assert ps == ps[..k] + [ps[k]];
    }
  }

  /** A checksync accounts for every watched path, whatever connects and whatever was before. */
  lemma CheckSyncServes(root: Path, w: World, s: State, rest: seq<Event>)
    requires VisitsLocal(w) && GoodLocal(root, w.local) && GoodServer(root, s.server)
    ensures Served(root, w, rest, CheckSync(w, s))
  {
    var s1, ps := Drained(w, s), w.visit(|s.log|);
    DrainedExact(root, w, s);
    forall p | p in w.local
      ensures ServedAt(w, CheckSync(w, s), p)
    {
      CheckAllServes(root, w, s1, ps, p);
    }
    CheckAllServes(root, w, s1, ps, root);
  }

  lemma TestedServes(root: Path, w: World, s: State, rest: seq<Event>)
    requires VisitsLocal(w) && GoodLocal(root, w.local) && Served(root, w, rest, s)
    ensures Served(root, w, rest, SyncIfDue(w, s))
  {
    if s.connection == 1 {
      CheckSyncServes(root, w, s, rest);
    }
  }

  // ----- events -----

  /** A reported path is backed up, or its upload has just failed. */
  lemma PostServes(root: Path, w: World, s: State, e: Event, rest: seq<Event>)
    requires GoodLocal(root, w.local) && e.status != Erased && e.path in w.local
    requires Served(root, w, [e] + rest, s)
    ensures Served(root, w, rest, PostPath(w, s, Watching, e.path))
  {
    var call, ok := Put(e.path, LocalContent(w, e.path)), w.up(|s.log|);
    EffectStaysGood(root, w, s.server, call);
    forall p | p in w.local && !Coming(rest, p)
      ensures ServedAt(w, PostPath(w, s, Watching, e.path), p)
    {
      ComingOneMore(e, rest, p);
      if p != e.path {
        AttemptServes(root, w, s, Watching, call, ok, p);
      } else if ok {
        EffectServes(root, w, s.server, call, p);
      } else {
        JustMissed(s.log, Attempt(Watching, call, false), p);
      }
    }
  }

  lemma DeleteServes(root: Path, w: World, s: State, e: Event, rest: seq<Event>)
    requires GoodLocal(root, w.local) && e.status == Erased && e.path !in w.local && root < e.path
    requires Served(root, w, [e] + rest, s)
    ensures Served(root, w, rest, DeletePath(w, s, Watching, e.path))
  {
    DeleteIsServing(root, w, e.path);
    EffectStaysGood(root, w, s.server, Remove(e.path));
    forall p | p in w.local && !Coming(rest, p)
      ensures ServedAt(w, DeletePath(w, s, Watching, e.path), p)
    {
      ComingOneMore(e, rest, p);
      AttemptServes(root, w, s, Watching, Remove(e.path), w.up(|s.log|), p);
    }
  }

  lemma DeleteIsServing(root: Path, w: World, x: Path)
    requires GoodLocal(root, w.local) && x !in w.local && root < x
    ensures CallServes(w, Remove(x))
  {
    forall p | p in w.local
      ensures !(x <= p)
    {
      LocalAbove(root, w.local, p, x);
    }
  }

  lemma EventServes(root: Path, w: World, s: State, e: Event, rest: seq<Event>)
    requires VisitsLocal(w) && GoodLocal(root, w.local) && EventFits(root, w, e)
    requires Served(root, w, [e] + rest, s)
    ensures Served(root, w, rest, OnEvent(w, s, e))
  {
    var s1 := Tested(w, s);
    var s2 := Waited(w, s1, Late);
    WaitedServes(root, w, [e] + rest, s, Early);
    TestedServes(root, w, Waited(w, s, Early), [e] + rest);
    WaitedServes(root, w, [e] + rest, s1, Late);
    if e.status == Erased {
      DeleteServes(root, w, s2, e, rest);
      WaitedServes(root, w, rest, DeletePath(w, s2, Watching, e.path), Unqueued(e.path));
    } else {
      PostServes(root, w, s2, e, rest);
    }
  }

  lemma {:induction false} EventsServe(root: Path, w: World, s: State, events: seq<Event>, k: nat)
    requires VisitsLocal(w) && GoodLocal(root, w.local) && k <= |events|
    requires forall e :: e in events ==> EventFits(root, w, e)
    requires Served(root, w, events, s)
    ensures Served(root, w, events[k..], OnEvents(w, s, events[..k]))
    decreases k
  {
    if k == 0 {
      assert events[0..] == events && events[..0] == [];
    } else {
      OnEventsOneMore(w, s, events, k);
      EventsServe(root, w, s, events, k - 1);
      EventServes(root, w, OnEvents(w, s, events[..k - 1]), events[k - 1], events[k..]);
    }
  }

  // ----- runs -----

  /** Every path seen is backed up, or missed. */
  ghost predicate SeenServed(root: Path, hash: string -> string, seen: Local, s: State) {
    && GoodServer(root, s.server)
    && forall p :: p in seen ==> BackedAt(hash, s.server, seen, p) || Missed(s.log, p)
  }

  lemma ScanServes(root: Path, seen: Local, s: State, w: World, events: seq<Event>)
    requires Follows(seen, w.local) && IsScan(TimesOf(seen), TimesOf(w.local), events)
    requires SeenServed(root, w.hash, seen, s)
    ensures Served(root, w, events, s)
  {
    QuietPathsUnchanged(seen, w, events);
    forall p | p in w.local && !Coming(events, p)
      ensures ServedAt(w, s, p)
    {
      assert p in seen && seen[p].node == w.local[p].node;
    }
  }

  lemma TickServes(root: Path, seen: Local, s: State, w: World, events: seq<Event>)
    requires VisitsLocal(w) && GoodLocal(root, w.local) && GoodLocal(root, seen) && Follows(seen, w.local)
    requires IsScan(TimesOf(seen), TimesOf(w.local), events) && SeenServed(root, w.hash, seen, s)
    ensures SeenServed(root, w.hash, w.local, Tick(w, s, events))
  {
    var s1 := SyncIfDue(w, s);
    ScanFits(root, seen, w, events);
    ScanServes(root, seen, s, w, events);
    TestedServes(root, w, s, events);
    EventsServe(root, w, s1, events, |events|);
    assert events[..|events|] == events && events[|events|..] == [];
    AllServed(root, w, Tick(w, s, events));
  }

  lemma AllServed(root: Path, w: World, s: State)
    requires Served(root, w, [], s)
    ensures SeenServed(root, w.hash, w.local, s)
  {
    forall p | p in w.local
      ensures ServedAt(w, s, p)
    {
      assert !Coming([], p);
    }
  }

  lemma StepServes(root: Path, hash: string -> string, sys: System, step: Step)
    requires GoodLocal(root, sys.seen) && StepRuns(step) && StepOk(root, hash, sys.seen, step)
    requires SeenServed(root, hash, sys.seen, sys.state)
    ensures SeenServed(root, hash, Do(sys, step).seen, Do(sys, step).state)
  {
    match step
    case TickStep(w, events) => TickServes(root, sys.seen, sys.state, w, events);
    case ProbeStep(ok) =>
      forall p | p in sys.seen && Missed(sys.state.log, p)
        ensures sys.state.connection == 0 ==> Missed(Probe(sys.state, Idle, ok).log, p)
      {
        StaysMissed(sys.state.log, Attempt(Probing(Idle), Hello("reconnect"), ok), p);
      }
  }

  lemma {:induction false} RunServes(root: Path, hash: string -> string, sys: System, steps: seq<Step>)
    requires GoodLocal(root, sys.seen) && RunOk(root, hash, sys, steps)
    requires SeenServed(root, hash, sys.seen, sys.state)
    ensures SeenServed(root, hash, RunSteps(sys, steps).seen, RunSteps(sys, steps).state)
    decreases |steps|
  {
    if steps != [] {
      var k := |steps| - 1;
      assert StepRuns(steps[k]);
      RunServes(root, hash, sys, steps[..k]);
      SeenIsGood(root, hash, sys, steps[..k]);
      StepServes(root, hash, RunSteps(sys, steps[..k]), steps[k]);
    }
  }

  /** Over every run, with outages and probes anywhere: every watched path is backed up, or a
      comparison or an upload of it has failed and no upload of it or of something below it was
      delivered since. */
  lemma NothingElseIsMissing(root: Path, w0: World, server: Tree, logins: nat, steps: seq<Step>, p: Path)
    requires WorldOk(root, w0.hash, w0) && GoodServer(root, server)
    requires RunOk(root, w0.hash, Begin(w0, server, logins), steps)
    ensures var sys := RunSteps(Begin(w0, server, logins), steps);
            p in sys.seen ==>
              BackedAt(w0.hash, sys.state.server, sys.seen, p) || Missed(sys.state.log, p)
  {
    LoggedInState(server, logins);
    CheckSyncServes(root, w0, LoggedIn(server, logins), []);
    AllServed(root, w0, Begin(w0, server, logins).state);
    RunServes(root, w0.hash, Begin(w0, server, logins), steps);
  }
}
