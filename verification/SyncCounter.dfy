/** The connection counter, and the checksync it enforces after an outage. */
module SyncCounter {
  import opened FileTree
  import opened FileWatcher
  import opened Sync
  import opened SyncHistory

  /** One more than the successes in a row, or zero after a failure. */
  function Count(log: seq<Entry>): nat {
    if log == [] then 1
    else
      var n := Count(log[..|log| - 1]);
      match log[|log| - 1]
      case Attempt(_, _, ok) => if ok then n + 1 else 0
      case SyncStart(_) => n
  }

  predicate LastAttemptFailed(log: seq<Entry>) {
    log != [] &&
    match log[|log| - 1]
    case Attempt(_, _, ok) => !ok
    case SyncStart(_) => LastAttemptFailed(log[..|log| - 1])
  }

  /** The last attempt has connected, and the one before it, if there was one. */
  predicate ConnectedTwice(log: seq<Entry>) {
    log != [] &&
    match log[|log| - 1]
    case Attempt(_, _, ok) => ok && !LastAttemptFailed(log[..|log| - 1])
    case SyncStart(_) => ConnectedTwice(log[..|log| - 1])
  }

  /** An attempt has succeeded right after a failure, and since then no checksync has begun and
      no attempt has failed. */
  predicate Owes(log: seq<Entry>) {
    log != [] &&
    match log[|log| - 1]
    case Attempt(_, _, ok) => ok && (LastAttemptFailed(log[..|log| - 1]) || Owes(log[..|log| - 1]))
    case SyncStart(_) => false
  }

  /** No request of the watcher is ever made while a checksync is owed. */
  predicate Disciplined(log: seq<Entry>) {
    forall i :: 0 <= i < |log| && log[i].Attempt? && log[i].origin == Watching ==> !Owes(log[..i])
  }

  /** No probe succeeds between a counter test of the action and the request after it. */
  predicate NoSkip(log: seq<Entry>) {
    forall i :: 0 <= i < |log| && log[i].Attempt? && log[i].origin == Probing(Late) ==> !log[i].ok
  }

  lemma {:induction false} CountIsZero(log: seq<Entry>)
    ensures Count(log) == 0 <==> LastAttemptFailed(log)
    ensures Count(log) >= 2 <==> ConnectedTwice(log)
    decreases |log|
  {
    if log != [] {
      CountIsZero(log[..|log| - 1]);
    }
  }

  // ----- the counter is read off the history -----

  predicate Counts(s: State) { s.connection == Count(s.log) }

  ghost function CountedStates(): iset<State> { iset s: State | Counts(s) }

  lemma CountOneMore(log: seq<Entry>, e: Entry)
    ensures Count(log + [e]) == if e.SyncStart? then Count(log) else if e.ok then Count(log) + 1 else 0
  {
    assert (log + [e])[..|log|] == log;
  }

  lemma CountsKept()
    ensures Kept(CountedStates(), AllCalls()) && Markable(CountedStates())
  {
    forall s: State, origin, call, ok | Counts(s)
      ensures Counts(Attempted(s, origin, call, ok))
    {
      CountOneMore(s.log, Attempt(origin, call, ok));
    }
    forall s: State | Counts(s)
      ensures Counts(Marked(s))
    {
      CountOneMore(s.log, SyncStart(s.deleted));
    }
  }

  /** Over every run, whatever connects. */
  lemma RunCounts(w0: World, server: Tree, logins: nat, steps: seq<Step>)
    requires VisitsLocal(w0) && forall i :: 0 <= i < |steps| ==> StepRuns(steps[i])
    ensures Counts(RunSteps(Begin(w0, server, logins), steps).state)
  {
    CountsKept();
    assert State(server, [], 1, []) in CountedStates();
    AlwaysStays(CountedStates(), w0, server, logins, steps);
    assert RunSteps(Begin(w0, server, logins), steps).state in CountedStates();
  }

  /** After a failure the counter is the number of attempts that have connected since. */
  lemma {:induction false} CounterReadsSuccesses(log: seq<Entry>, n: nat)
    requires n < |log| && log[n].Attempt? && !log[n].ok
    requires forall i :: n < i < |log| && log[i].Attempt? ==> log[i].ok
    ensures Count(log) == |set i | n < i < |log| && log[i].Attempt?|
    decreases |log|
  {
    var k := |log| - 1;
    var now := set i | n < i < |log| && log[i].Attempt?;
    if k == n {
      assert now == {};
    } else {
      var before := set i | n < i < k && log[..k][i].Attempt?;
      CounterReadsSuccesses(log[..k], n);
      assert now == if log[k].Attempt? then before + {k} else before;
    }
  }

  // ----- when a checksync begins -----

  /** From entry `n` on, every checksync of the history has begun with the counter at one. */
  ghost predicate BegunAtOne(log: seq<Entry>, n: nat) {
    forall i :: n <= i < |log| && log[i].SyncStart? ==> Count(log[..i]) == 1
  }

  ghost function DueStates(n: nat): iset<State> { iset s: State | Counts(s) && |s.log| >= n && BegunAtOne(s.log, n) }

  lemma OneMoreBegun(log: seq<Entry>, e: Entry, n: nat)
    requires BegunAtOne(log, n) && (e.SyncStart? && |log| >= n ==> Count(log) == 1)
    ensures BegunAtOne(log + [e], n)
  {
    var l := log + [e];
    forall i | 0 <= i < |log|
      ensures l[..i] == log[..i] && l[i] == log[i]
    {
    }
    assert l[..|log|] == log;
  }

  lemma DueKept(n: nat)
    ensures Kept(DueStates(n), AllCalls())
  {
    forall s: State, origin, call, ok | s in DueStates(n)
      ensures Attempted(s, origin, call, ok) in DueStates(n)
    {
      CountOneMore(s.log, Attempt(origin, call, ok));
      OneMoreBegun(s.log, Attempt(origin, call, ok), n);
    }
    forall s: State | s in DueStates(n) && s.connection == 1
      ensures Marked(s) in DueStates(n)
    {
      CountOneMore(s.log, SyncStart(s.deleted));
      OneMoreBegun(s.log, SyncStart(s.deleted), n);
    }
  }

  /** From any state whose counter is read off its history, whatever connects: a checksync begins only
      with the counter at one. */
  lemma RunBeginsAtOne(sys: System, steps: seq<Step>)
    requires Counts(sys.state) && forall i :: 0 <= i < |steps| ==> StepRuns(steps[i])
    ensures BegunAtOne(RunSteps(sys, steps).state.log, |sys.state.log|)
  {
    var n := |sys.state.log|;
    DueKept(n);
    AllStepCalls(steps);
    assert sys.state in DueStates(n);
    RunStays(DueStates(n), AllCalls(), sys, steps);
    assert RunSteps(sys, steps).state in DueStates(n);
  }

  /** So after the logins and the first checksync, over every run. */
  lemma ChecksyncWhenDue(w0: World, server: Tree, logins: nat, steps: seq<Step>)
    requires VisitsLocal(w0) && forall i :: 0 <= i < |steps| ==> StepRuns(steps[i])
    ensures var start := Begin(w0, server, logins);
            BegunAtOne(RunSteps(start, steps).state.log, |start.state.log|)
  {
    RunCounts(w0, server, logins, []);
    RunBeginsAtOne(Begin(w0, server, logins), steps);
  }

  /** A turn without events changes nothing unless the counter is one. */
  lemma QuietTick(w: World, s: State)
    requires VisitsLocal(w) && s.connection != 1
    ensures Tick(w, s, []) == s
  {
  }

  // ----- the discipline -----

  /** No attempt of a checksync has failed, and no probe has skipped one. */
  predicate Clear(log: seq<Entry>) { NoSyncOutage(log, 0) && NoSkip(log) }

  /** The invariant between requests. */
  predicate Steady(s: State) {
    && Counts(s) && (Disciplined(s.log) ==> NoSkip(s.log))
    && (Clear(s.log) ==> Disciplined(s.log) && (Owes(s.log) ==> s.connection == 1))
  }

  /** The invariant where no checksync is owed. */
  predicate Settled(s: State) {
    && Counts(s) && (Disciplined(s.log) ==> NoSkip(s.log))
    && (Clear(s.log) ==> Disciplined(s.log) && !Owes(s.log))
  }

  /** Inside a checksync: nothing is owed, and the counter stays positive unless it fails. */
  predicate InSync(s: State) { Settled(s) && (Clear(s.log) ==> s.connection >= 1) }

  lemma OneMoreClear(log: seq<Entry>, e: Entry)
    ensures var late := e.Attempt? && e.origin == Probing(Late) && e.ok;
            var failed := e.Attempt? && e.origin == Syncing && !e.ok;
            (NoSkip(log + [e]) <==> NoSkip(log) && !late) && (Clear(log + [e]) <==> Clear(log) && !late && !failed)
  {
    var l := log + [e];
    assert l[|log|] == e && forall i :: 0 <= i < |log| ==> l[i] == log[i];
  }

  lemma OneMoreDisciplined(log: seq<Entry>, e: Entry)
    ensures Disciplined(log + [e]) <==>
            Disciplined(log) && (e.Attempt? && e.origin == Watching ==> !Owes(log))
    ensures (log + [e])[..|log|] == log
  {
    var l := log + [e];
    assert l[..|log|] == log && l[|log|] == e;
    forall i | 0 <= i < |log|
      ensures l[..i] == log[..i] && l[i] == log[i]
    {
    }
  }

  lemma OneMoreEntry(s: State, e: Entry)
    ensures var log := s.log + [e];
      && (Disciplined(log) <==> Disciplined(s.log) && (e.Attempt? && e.origin == Watching ==> !Owes(s.log)))
      && (Owes(log) <==> e.Attempt? && e.ok && (LastAttemptFailed(s.log) || Owes(s.log)))
      && (Counts(s) ==> (LastAttemptFailed(s.log) <==> s.connection == 0))
  {
    OneMoreDisciplined(s.log, e);
    CountIsZero(s.log);
  }

  lemma OneMore(s: State, origin: Origin, call: Call, ok: bool)
    requires Counts(s)
    ensures Counts(Attempted(s, origin, call, ok))
  {
    CountOneMore(s.log, Attempt(origin, call, ok));
  }

  /** An attempt made where no checksync is owed. */
  lemma AttemptSettled(s: State, origin: Origin, call: Call, ok: bool)
    requires Settled(s) && origin != Probing(Late)
    ensures Steady(Attempted(s, origin, call, ok))
    ensures s.connection >= 1 ==> Settled(Attempted(s, origin, call, ok))
  {
    var e := Attempt(origin, call, ok);
    OneMoreEntry(s, e);
    OneMoreClear(s.log, e);
    OneMore(s, origin, call, ok);
  }

  // ----- the timer -----

  /** Outside the window before a request a probe leaves the next counter test to notice it. */
  lemma {:induction false} ProbesSteady(s: State, moment: Moment, oks: seq<bool>)
    requires Steady(s) && moment != Late
    ensures Steady(Probes(s, moment, oks))
    decreases |oks|
  {
    if oks != [] {
      var k := |oks| - 1;
      var s1 := Probes(s, moment, oks[..k]);
      ProbesSteady(s, moment, oks[..k]);
      var e := Attempt(Probing(moment), Hello("reconnect"), oks[k]);
      OneMoreEntry(s1, e);
      OneMoreClear(s1.log, e);
      OneMore(s1, e.origin, e.call, e.ok);
    }
  }

  lemma {:induction false} ProbesInSync(s: State, oks: seq<bool>)
    requires InSync(s)
    ensures InSync(Probes(s, Within, oks))
    decreases |oks|
  {
    if oks != [] {
      var k := |oks| - 1;
      var s1 := Probes(s, Within, oks[..k]);
      ProbesInSync(s, oks[..k]);
      var e := Attempt(Probing(Within), Hello("reconnect"), oks[k]);
      OneMoreEntry(s1, e);
      OneMoreClear(s1.log, e);
      OneMore(s1, e.origin, e.call, e.ok);
    }
  }

  /** In the window before a request nothing changes unless a probe succeeds; then a checksync is
      owed, and skipped. */
  lemma {:induction false} ProbesLate(s: State, oks: seq<bool>)
    requires Settled(s)
    ensures var r := Probes(s, Late, oks);
      && Counts(r) && (Clear(r.log) ==> Disciplined(r.log) && !Owes(r.log))
      && ((Disciplined(r.log) ==> NoSkip(r.log)) || Owes(r.log))
    decreases |oks|
  {
    if oks != [] {
      var k := |oks| - 1;
      var s1 := Probes(s, Late, oks[..k]);
      ProbesLate(s, oks[..k]);
      var e := Attempt(Probing(Late), Hello("reconnect"), oks[k]);
      OneMoreEntry(s1, e);
      OneMoreClear(s1.log, e);
      OneMore(s1, e.origin, e.call, e.ok);
    }
  }

  // ----- checksync -----

  lemma SyncSendInSync(w: World, s: State, call: Call)
    requires InSync(s)
    ensures InSync(SyncSend(w, s, call))
  {
    var s1 := Waited(w, s, Within);
    ProbesInSync(s, w.timer(|s.log|, Within));
    var e := Attempt(Syncing, call, w.up(|s1.log|));
    OneMoreEntry(s1, e);
    OneMoreClear(s1.log, e);
    OneMore(s1, Syncing, call, e.ok);
  }

  lemma {:induction false} DrainInSync(w: World, s: State, xs: seq<Path>)
    requires InSync(s)
    ensures InSync(Drain(w, s, xs))
    decreases |xs|
  {
    if xs != [] {
      DrainInSync(w, s, xs[..|xs| - 1]);
      SyncSendInSync(w, Drain(w, s, xs[..|xs| - 1]), Remove(xs[|xs| - 1]));
    }
  }

  lemma CheckPathInSync(w: World, s: State, p: Path)
    requires InSync(s) && p in w.local
    ensures InSync(CheckPath(w, s, p))
  {
    SyncSendInSync(w, s, Get(p, LocalContent(w, p)));
    SyncSendInSync(w, Compared(w, s, p), Put(p, LocalContent(w, p)));
  }

  lemma {:induction false} CheckAllInSync(w: World, s: State, ps: seq<Path>)
    requires InSync(s) && Listed(ps, w.local)
    ensures InSync(CheckAll(w, s, ps))
    decreases |ps|
  {
    if ps != [] {
      CheckAllInSync(w, s, ps[..|ps| - 1]);
      CheckPathInSync(w, CheckAll(w, s, ps[..|ps| - 1]), ps[|ps| - 1]);
    }
  }

  lemma CheckSyncSettles(w: World, s: State)
    requires VisitsLocal(w) && Steady(s) && s.connection >= 1
    ensures Settled(CheckSync(w, s))
  {
    var e := SyncStart(s.deleted);
    OneMoreEntry(s, e);
    OneMoreClear(s.log, e);
    CountOneMore(s.log, e);
    DrainInSync(w, Marked(s), s.deleted);
    CheckAllInSync(w, Drained(w, s), w.visit(|s.log|));
  }

  // ----- events, ticks, runs -----

  lemma SyncIfDueSettles(w: World, s: State)
    requires VisitsLocal(w) && Steady(s)
    ensures Settled(SyncIfDue(w, s))
  {
    if s.connection == 1 {
      CheckSyncSettles(w, s);
    }
  }

  /** The request of the action, with the window before it. */
  lemma LateSendSteady(w: World, s: State, call: Call)
    requires Settled(s)
    ensures Steady(Send(w, Waited(w, s, Late), Watching, call))
  {
    ProbesLate(s, w.timer(|s.log|, Late));
    LateAttempt(Waited(w, s, Late), call, w.up(|Waited(w, s, Late).log|));
  }

  lemma LateAttempt(s: State, call: Call, ok: bool)
    requires Counts(s) && (Clear(s.log) ==> Disciplined(s.log) && !Owes(s.log))
    requires (Disciplined(s.log) ==> NoSkip(s.log)) || Owes(s.log)
    ensures Steady(Attempted(s, Watching, call, ok))
  {
    var e := Attempt(Watching, call, ok);
    OneMoreEntry(s, e);
    OneMoreClear(s.log, e);
    OneMore(s, Watching, call, ok);
  }

  lemma ReactSteady(w: World, s: State, e: Event)
    requires Settled(s)
    ensures Steady(React(w, s, e))
  {
    if e.status == Erased {
      var s1 := DeletePath(w, Waited(w, s, Late), Watching, e.path);
      LateSendSteady(w, s, Remove(e.path));
      ProbesSteady(s1, Unqueued(e.path), w.timer(|s1.log|, Unqueued(e.path)));
    } else if e.path in w.local {
      LateSendSteady(w, s, Put(e.path, LocalContent(w, e.path)));
    }
  }

  lemma {:induction false} OnEventsSteady(w: World, s: State, events: seq<Event>)
    requires VisitsLocal(w) && Steady(s)
    ensures Steady(OnEvents(w, s, events))
    decreases |events|
  {
    if events != [] {
      var s1 := OnEvents(w, s, events[..|events| - 1]);
      OnEventsSteady(w, s, events[..|events| - 1]);
      ProbesSteady(s1, Early, w.timer(|s1.log|, Early));
      SyncIfDueSettles(w, Waited(w, s1, Early));
      ReactSteady(w, SyncIfDue(w, Waited(w, s1, Early)), events[|events| - 1]);
    }
  }

  lemma DoSteady(sys: System, step: Step)
    requires StepRuns(step) && Steady(sys.state)
    ensures Steady(Do(sys, step).state)
  {
    match step
    case TickStep(w, events) =>
      SyncIfDueSettles(w, sys.state);
      OnEventsSteady(w, SyncIfDue(w, sys.state), events);
    case ProbeStep(ok) =>
      ProbesSteady(sys.state, Idle, [ok]);
      assert [ok][..0] == [];
      assert Probes(sys.state, Idle, [ok]) == Probe(sys.state, Idle, ok);
  }

  lemma {:induction false} LoginSettled(server: Tree, logins: nat)
    ensures Settled(LoggedIn(server, logins)) && LoggedIn(server, logins).connection >= 1
  {
    if logins > 0 {
      LoginSettled(server, logins - 1);
      AttemptSettled(LoggedIn(server, logins - 1), Probing(Idle), Hello("login"), true);
    }
  }

  /** Over every run, with outages and probes anywhere, the counter is what the history says, hence
      zero exactly when the last attempt failed.  And if no checksync attempt has failed, the
      watcher never makes a request after the first success that follows a failure before a
      checksync has begun, if and only if no probe succeeds between a counter test of the action
      and the request after it. */
  lemma {:induction false} CounterInvariant(w0: World, server: Tree, logins: nat, steps: seq<Step>)
    requires VisitsLocal(w0) && forall i :: 0 <= i < |steps| ==> StepRuns(steps[i])
    ensures var s := RunSteps(Begin(w0, server, logins), steps).state;
      && Steady(s) && (s.connection == 0 <==> LastAttemptFailed(s.log))
      && (NoSyncOutage(s.log, 0) ==> (Disciplined(s.log) <==> NoSkip(s.log)))
    decreases |steps|
  {
    if steps == [] {
      LoginSettled(server, logins);
      CheckSyncSettles(w0, LoggedIn(server, logins));
    } else {
      CounterInvariant(w0, server, logins, steps[..|steps| - 1]);
      DoSteady(RunSteps(Begin(w0, server, logins), steps[..|steps| - 1]), steps[|steps| - 1]);
    }
    CountIsZero(RunSteps(Begin(w0, server, logins), steps).state.log);
  }
}
