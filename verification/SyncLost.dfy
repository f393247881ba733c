/** What a run can lose, with outages and probes anywhere: nothing but the deletions that a
    checksync dropped undelivered, or that slipped the queue. */
module SyncLost {
  import opened Text
  import opened FileTree
  import opened FileWatcher
  import opened Sync
  import opened SyncSteps
  import opened SyncHistory
  import opened SyncEvents
  import opened SyncMirror

  /** The entry forgets the deletion of `q`: a checksync takes it from the queue, or a probe
      succeeds before the failed removal is queued. */
  predicate Drops(e: Entry, q: Path) {
    match e
    case SyncStart(queue) => q in queue
    case Attempt(origin, _, ok) => ok && origin == Probing(Unqueued(q))
  }

  /** The entry delivers a deletion of `q` or of something above it. */
  predicate Takes(e: Entry, q: Path) { e.Attempt? && e.ok && e.call.Remove? && e.call.path <= q }

  /** The deletion of `q` was forgotten, and none has been delivered since. */
  predicate Lost(log: seq<Entry>, q: Path) {
    exists i :: 0 <= i < |log| && Drops(log[i], q) && NeverTaken(log, i + 1, q)
  }

  predicate NeverTaken(log: seq<Entry>, n: nat, q: Path) { forall j :: n <= j < |log| ==> !Takes(log[j], q) }

  lemma StaysLost(log: seq<Entry>, e: Entry, q: Path)
    requires Lost(log, q) && !Takes(e, q)
    ensures Lost(log + [e], q)
  {
    var i :| 0 <= i < |log| && Drops(log[i], q) && NeverTaken(log, i + 1, q);
    var l := log + [e];
    assert l[i] == log[i] && forall j :: 0 <= j < |log| ==> l[j] == log[j];
    assert NeverTaken(l, i + 1, q);
  }

  lemma JustLost(log: seq<Entry>, q: Path)
    requires log != [] && Drops(log[|log| - 1], q)
    ensures Lost(log, q)
  {
    assert NeverTaken(log, |log| - 1 + 1, q);
  }

  // ----- what every call keeps -----

  /** Below the root the server holds known paths and lost ones only. */
  ghost predicate Known(root: Path, known: iset<Path>, s: State) {
    GoodServer(root, s.server) && forall q :: q in s.server && root < q ==> q in known || Lost(s.log, q)
  }

  ghost function KnownStates(root: Path, known: iset<Path>): iset<State> { iset s: State | Known(root, known, s) }

  /** Uploads of known paths, all below the root. */
  ghost predicate CallKnown(root: Path, known: iset<Path>, call: Call) {
    match call
    case Put(p, _) => PathFits(root, p) && forall q :: root < q <= p ==> q in known
    case _ => true
  }

  ghost function KnownCalls(root: Path, known: iset<Path>): iset<Call> { iset call | CallKnown(root, known, call) }

  lemma EffectKnown(root: Path, known: iset<Path>, t: Tree, call: Call, q: Path)
    requires GoodServer(root, t) && CallKnown(root, known, call) && root < q
    ensures GoodServer(root, Effect(t, call))
    ensures q in Effect(t, call) ==> q in known || (q in t && (call.Remove? ==> !(call.path <= q)))
  {
    match call
    case Put(p, content) => UploadFits(root, t, p, Framed(content));
    case Remove(p) => DeleteGood(root, t, p);
    case _ =>
  }

  lemma AttemptKnown(root: Path, known: iset<Path>, s: State, origin: Origin, call: Call, ok: bool)
    requires Known(root, known, s) && CallKnown(root, known, call)
    ensures Known(root, known, Attempted(s, origin, call, ok))
  {
    var r := Attempted(s, origin, call, ok);
    EffectKnown(root, known, s.server, call, root + [""]);
    forall q | q in r.server && root < q
      ensures q in known || Lost(r.log, q)
    {
      EffectKnown(root, known, s.server, call, q);
      if q !in known {
        StaysLost(s.log, Attempt(origin, call, ok), q);
      }
    }
  }

  lemma KnownKept(root: Path, known: iset<Path>)
    ensures Kept(KnownStates(root, known), KnownCalls(root, known))
  {
    forall s: State, origin, call, ok | Known(root, known, s) && CallKnown(root, known, call)
      ensures Known(root, known, Attempted(s, origin, call, ok))
    {
      AttemptKnown(root, known, s, origin, call, ok);
    }
    forall s: State | Known(root, known, s)
      ensures Known(root, known, Marked(s))
    {
      MarkedKnown(root, known, s);
    }
  }

  lemma MarkedKnown(root: Path, known: iset<Path>, s: State)
    requires Known(root, known, s)
    ensures Known(root, known, Marked(s))
  {
    forall q | q in s.server && root < q && q !in known
      ensures Lost(Marked(s).log, q)
    {
      StaysLost(s.log, SyncStart(s.deleted), q);
    }
  }

  lemma LocalKnown(root: Path, known: iset<Path>, w: World)
    requires GoodLocal(root, w.local) && forall p :: p in w.local ==> p in known
    ensures LocalCalls(KnownCalls(root, known), w)
  {
    forall p | p in w.local
      ensures CallKnown(root, known, Put(p, LocalContent(w, p)))
    {
      PutKnown(root, known, w, p);
    }
  }

  lemma PutKnown(root: Path, known: iset<Path>, w: World, p: Path)
    requires GoodLocal(root, w.local) && p in w.local && forall q :: q in w.local ==> q in known
    ensures CallKnown(root, known, Put(p, LocalContent(w, p)))
  {
    LocalFits(root, w.local, p);
    forall q | root < q <= p
      ensures q in known
    {
      LocalAbove(root, w.local, p, q);
    }
  }

  // ----- the queue -----

  ghost function OrQueued(known: iset<Path>, s: State): iset<Path> { iset q | q in known || q in s.deleted }

  /** Below the root the server holds known paths, queued ones and lost ones only. */
  ghost predicate Accounted(root: Path, known: iset<Path>, s: State) { Known(root, OrQueued(known, s), s) }

  lemma WaitedAccounted(root: Path, known: iset<Path>, w: World, s: State, moment: Moment)
    requires Accounted(root, known, s)
    ensures Accounted(root, known, Waited(w, s, moment))
  {
    var all := OrQueued(known, s);
    KnownKept(root, all);
    assert s in KnownStates(root, all) && Hello("reconnect") in KnownCalls(root, all);
    WaitedStays(KnownStates(root, all), KnownCalls(root, all), w, s, moment);
    assert Waited(w, s, moment) in KnownStates(root, all);
    assert OrQueued(known, Waited(w, s, moment)) == all;
  }

  /** A checksync drops its queue, and accounts for it. */
  lemma QueueIsDropped(root: Path, known: iset<Path>, s: State)
    requires Accounted(root, known, s)
    ensures Known(root, known, Marked(s))
  {
    forall q | q in s.server && root < q && q !in known
      ensures Lost(Marked(s).log, q)
    {
      if q in s.deleted {
        JustLost(Marked(s).log, q);
      } else {
        StaysLost(s.log, SyncStart(s.deleted), q);
      }
    }
  }

  lemma SyncKnown(root: Path, known: iset<Path>, w: World, s: State)
    requires VisitsLocal(w) && GoodLocal(root, w.local) && forall p :: p in w.local ==> p in known
    requires Known(root, known, Marked(s))
    ensures CheckSync(w, s) in KnownStates(root, known) && CheckSync(w, s).deleted == []
  {
    KnownKept(root, known);
    LocalKnown(root, known, w);
    CheckSyncGoesOn(KnownStates(root, known), KnownCalls(root, known), w, s);
  }

  lemma SyncAccounted(root: Path, known: iset<Path>, w: World, s: State)
    requires VisitsLocal(w) && GoodLocal(root, w.local) && forall p :: p in w.local ==> p in known
    requires Accounted(root, known, s)
    ensures Accounted(root, known, SyncIfDue(w, s))
  {
    if s.connection == 1 {
      QueueIsDropped(root, known, s);
      SyncKnown(root, known, w, s);
      assert OrQueued(known, CheckSync(w, s)) == known;
    }
  }

  // ----- one event -----

  /** Watched, stale, or about to be reported erased. */
  ghost function Named(w: World, stale: iset<Path>, rest: seq<Event>): iset<Path> {
    iset q | q in w.local || q in stale || Event(q, Erased) in rest
  }

  lemma PostAccounted(root: Path, w: World, stale: iset<Path>, s: State, e: Event, rest: seq<Event>)
    requires GoodLocal(root, w.local) && e.status != Erased && e.path in w.local
    requires Accounted(root, Named(w, stale, [e] + rest), s)
    ensures Accounted(root, Named(w, stale, rest), PostPath(w, s, Watching, e.path))
  {
    NamedPost(w, stale, e, rest);
    var all := OrQueued(Named(w, stale, rest), s);
    PutKnown(root, all, w, e.path);
    AttemptKnown(root, all, s, Watching, Put(e.path, LocalContent(w, e.path)), w.up(|s.log|));
    assert OrQueued(Named(w, stale, rest), PostPath(w, s, Watching, e.path)) == all;
  }

  lemma NamedPost(w: World, stale: iset<Path>, e: Event, rest: seq<Event>)
    requires e.status != Erased
    ensures Named(w, stale, [e] + rest) == Named(w, stale, rest)
  {
    InRest(e, rest);
  }

  lemma DeleteAccounted(root: Path, w: World, stale: iset<Path>, s: State, e: Event, rest: seq<Event>)
    requires e.status == Erased && Accounted(root, Named(w, stale, [e] + rest), s)
    ensures Accounted(root, Named(w, stale, [e] + rest), DeletePath(w, s, Watching, e.path))
    ensures w.up(|s.log|) ==> e.path !in DeletePath(w, s, Watching, e.path).server
  {
    var known := Named(w, stale, [e] + rest);
    AttemptKnown(root, OrQueued(known, s), s, Watching, Remove(e.path), w.up(|s.log|));
    assert OrQueued(known, DeletePath(w, s, Watching, e.path)) == OrQueued(known, s);
    DeleteGood(root, s.server, e.path);
    assert e.path <= e.path;
  }

  /** What is gone, queued or lost need not be named any more. */
  lemma NameDropped(root: Path, w: World, stale: iset<Path>, s: State, e: Event, rest: seq<Event>)
    requires e.status == Erased && Accounted(root, Named(w, stale, [e] + rest), s)
    requires e.path !in s.server || e.path in s.deleted || Lost(s.log, e.path)
    ensures Accounted(root, Named(w, stale, rest), s)
  {
    InRest(e, rest);
  }

  lemma QueueAccounted(root: Path, known: iset<Path>, s: State, p: Path)
    requires Accounted(root, known, s)
    ensures Accounted(root, known, s.(deleted := s.deleted + [p]))
  {
  }

  lemma ErasureAccounted(root: Path, w: World, stale: iset<Path>, s: State, e: Event, rest: seq<Event>)
    requires e.status == Erased && Accounted(root, Named(w, stale, [e] + rest), s)
    ensures Accounted(root, Named(w, stale, rest), React(w, s, e))
  {
    var known := Named(w, stale, [e] + rest);
    var s1 := Waited(w, s, Late);
    var s2 := DeletePath(w, s1, Watching, e.path);
    var s3 := Waited(w, s2, Unqueued(e.path));
    WaitedAccounted(root, known, w, s, Late);
    DeleteAccounted(root, w, stale, s1, e, rest);
    WaitedAccounted(root, known, w, s2, Unqueued(e.path));
    WaitedKeeps(w, s2, Unqueued(e.path));
    if s3.connection == 0 {
      QueueAccounted(root, known, s3, e.path);
    } else if s2.connection == 0 {
      ProbesWake(s2, Unqueued(e.path), w.timer(|s2.log|, Unqueued(e.path)));
      JustLost(s3.log, e.path);
    }
    NameDropped(root, w, stale, React(w, s, e), e, rest);
  }

  lemma EventAccounted(root: Path, w: World, stale: iset<Path>, s: State, e: Event, rest: seq<Event>)
    requires VisitsLocal(w) && GoodLocal(root, w.local) && EventFits(root, w, e)
    requires Accounted(root, Named(w, stale, [e] + rest), s)
    ensures Accounted(root, Named(w, stale, rest), OnEvent(w, s, e))
  {
    var known := Named(w, stale, [e] + rest);
    var s1 := Tested(w, s);
    WaitedAccounted(root, known, w, s, Early);
    SyncAccounted(root, known, w, Waited(w, s, Early));
    if e.status == Erased {
      ErasureAccounted(root, w, stale, s1, e, rest);
    } else {
      WaitedAccounted(root, known, w, s1, Late);
      PostAccounted(root, w, stale, Waited(w, s1, Late), e, rest);
    }
  }

  lemma {:induction false} EventsAccounted(
    root: Path, w: World, stale: iset<Path>, s: State, events: seq<Event>, k: nat)
    requires VisitsLocal(w) && GoodLocal(root, w.local) && k <= |events|
    requires forall e :: e in events ==> EventFits(root, w, e)
    requires Accounted(root, Named(w, stale, events), s)
    ensures Accounted(root, Named(w, stale, events[k..]), OnEvents(w, s, events[..k]))
    decreases k
  {
    if k == 0 {
      assert events[0..] == events && events[..0] == [];
    } else {
      OnEventsOneMore(w, s, events, k);
      EventsAccounted(root, w, stale, s, events, k - 1);
      EventAccounted(root, w, stale, OnEvents(w, s, events[..k - 1]), events[k - 1], events[k..]);
    }
  }

  // ----- runs -----

  /** Seen, or stale. */
  ghost function SeenOr(seen: Local, stale: iset<Path>): iset<Path> { iset q | q in seen || q in stale }

  lemma AccountedMore(root: Path, known: iset<Path>, more: iset<Path>, s: State)
    requires Accounted(root, known, s) && forall q :: q in known ==> q in more
    ensures Accounted(root, more, s)
  {
  }

  lemma TickAccounted(root: Path, stale: iset<Path>, seen: Local, s: State, w: World, events: seq<Event>)
    requires VisitsLocal(w) && GoodLocal(root, w.local) && GoodLocal(root, seen)
    requires IsScan(TimesOf(seen), TimesOf(w.local), events)
    requires Accounted(root, SeenOr(seen, stale), s)
    ensures Accounted(root, SeenOr(w.local, stale), Tick(w, s, events))
  {
    var s1 := SyncIfDue(w, s);
    ScanFits(root, seen, w, events);
    AccountedMore(root, SeenOr(seen, stale), Named(w, stale, events), s);
    SyncAccounted(root, Named(w, stale, events), w, s);
    EventsAccounted(root, w, stale, s1, events, |events|);
    assert events[..|events|] == events && events[|events|..] == [];
    assert Named(w, stale, []) == SeenOr(w.local, stale);
  }

  lemma StepAccounted(root: Path, hash: string -> string, stale: iset<Path>, sys: System, step: Step)
    requires GoodLocal(root, sys.seen) && StepRuns(step) && StepOk(root, hash, sys.seen, step)
    requires Accounted(root, SeenOr(sys.seen, stale), sys.state)
    ensures Accounted(root, SeenOr(Do(sys, step).seen, stale), Do(sys, step).state)
  {
    match step
    case TickStep(w, events) => TickAccounted(root, stale, sys.seen, sys.state, w, events);
    case ProbeStep(ok) =>
      if sys.state.connection == 0 {
        var all := OrQueued(SeenOr(sys.seen, stale), sys.state);
        AttemptKnown(root, all, sys.state, Probing(Idle), Hello("reconnect"), ok);
        assert OrQueued(SeenOr(sys.seen, stale), Probe(sys.state, Idle, ok)) == all;
      }
  }

  lemma {:induction false} RunAccounted(
    root: Path, hash: string -> string, stale: iset<Path>, sys: System, steps: seq<Step>)
    requires GoodLocal(root, sys.seen) && RunOk(root, hash, sys, steps)
    requires Accounted(root, SeenOr(sys.seen, stale), sys.state)
    ensures Accounted(root, SeenOr(RunSteps(sys, steps).seen, stale), RunSteps(sys, steps).state)
    decreases |steps|
  {
    if steps != [] {
      var k := |steps| - 1;
      assert StepRuns(steps[k]);
      RunAccounted(root, hash, stale, sys, steps[..k]);
      SeenIsGood(root, hash, sys, steps[..k]);
      StepAccounted(root, hash, stale, RunSteps(sys, steps[..k]), steps[k]);
    }
  }

  lemma BeginAccounted(root: Path, w: World, server: Tree, logins: nat)
    requires VisitsLocal(w) && GoodLocal(root, w.local) && GoodServer(root, server)
    ensures Accounted(root, SeenOr(w.local, Strangers(root, w.local, server)), Begin(w, server, logins).state)
  {
    var s, known := LoggedIn(server, logins), SeenOr(w.local, Strangers(root, w.local, server));
    LoggedInState(server, logins);
    MarkedKnown(root, known, s);
    SyncKnown(root, known, w, s);
    assert OrQueued(known, CheckSync(w, s)) == known;
  }

  /** Over every run, with outages and probes anywhere: whatever the server holds below the root is
      watched, or queued for deletion, or was there unwatched when the run began, or its deletion
      was dropped by a checksync or slipped the queue, and none was delivered since. */
  lemma NothingElseIsLost(root: Path, w0: World, server: Tree, logins: nat, steps: seq<Step>, q: Path)
    requires WorldOk(root, w0.hash, w0) && GoodServer(root, server)
    requires RunOk(root, w0.hash, Begin(w0, server, logins), steps)
    ensures var sys := RunSteps(Begin(w0, server, logins), steps);
            q in sys.state.server && root < q ==>
              q in sys.seen || q in sys.state.deleted || q in Strangers(root, w0.local, server)
              || Lost(sys.state.log, q)
  {
    BeginAccounted(root, w0, server, logins);
    RunAccounted(root, w0.hash, Strangers(root, w0.local, server), Begin(w0, server, logins), steps);
  }
}
