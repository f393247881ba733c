/** The client process: its globals, its requests, checksync and the main loop, updated in
    place. */
module BackupClient {
  import opened FileTree
  import opened Store
  import opened FileWatcher
  import opened Sync
  import opened SyncSteps

  class BackupClient {
    /** The user's tree on the server, as this client's requests leave it. */
    var server: Tree
    var deletedFiles: seq<Path>
    var checkConnection: int
    /** The history of connection attempts. */
    var log: seq<Entry>
    const watcher: FileWatcher

    function Value(): State
      reads this
    {
      State(server, deletedFiles, checkConnection, log)
    }

    /** After `logins` answered logins, the last one accepted; the watcher takes its snapshot. */
    constructor (server: Tree, logins: nat, snapshot: Times)
      ensures Value() == LoggedIn(server, logins)
      ensures fresh(watcher) && watcher.paths == snapshot
    {
      this.server := server;
      deletedFiles := [];
      checkConnection := 1;
      log := [];
      watcher := new FileWatcher(snapshot);
      new;
      var i := 0;
      while i < logins
        invariant 0 <= i <= logins && watcher.paths == snapshot && fresh(watcher)
        invariant Value() == LoggedIn(server, i)
      {
        checkConnection := checkConnection + 1;
        log := log + [Attempt(Probing(Idle), Hello("login"), true)];
        i := i + 1;
      }
    }

    /** One request on a connection of its own: counted when it is issued, reset when it fails
        to connect; the server acts on one that connects. */
    method Connect(w: World, origin: Origin, call: Call) returns (ok: bool)
      modifies this
      ensures ok == w.up(|old(log)|) && Value() == Attempted(old(Value()), origin, call, ok)
    {
      ok := w.up(|log|);
      checkConnection := checkConnection + 1;
      if ok {
        server := Effect(server, call);
      } else {
        checkConnection := 0;
      }
      log := log + [Attempt(origin, call, ok)];
    }

    method PostMethod(w: World, origin: Origin, p: Path)
      requires p in w.local
      modifies this
      ensures Value() == PostPath(w, old(Value()), origin, p)
    {
      var content := ContentOf(w.local[p].node);
      var _ := Connect(w, origin, Put(p, content));
    }

    method DeleteMethod(w: World, origin: Origin, p: Path)
      modifies this
      ensures Value() == DeletePath(w, old(Value()), origin, p)
    {
      var _ := Connect(w, origin, Remove(p));
    }

    /** The reconnect timer goes off. */
    method Reconnect(moment: Moment, ok: bool)
      modifies this`checkConnection, this`log
      ensures Value() == Probe(old(Value()), moment, ok)
    {
      if checkConnection == 0 {
        checkConnection := if ok then checkConnection + 1 else 0;
        log := log + [Attempt(Probing(moment), Hello("reconnect"), ok)];
      }
    }

    /** What the timer's thread does at a moment of a turn. */
    method Wait(w: World, moment: Moment)
      modifies this`checkConnection, this`log
      ensures Value() == Waited(w, old(Value()), moment)
    {
      ghost var s := Value();
      var oks := w.timer(|log|, moment);
      var i := 0;
      while i < |oks|
        invariant 0 <= i <= |oks| && Value() == Probes(s, moment, oks[..i])
      {
        assert oks[..i + 1][..i] == oks[..i];
        Reconnect(moment, oks[i]);
        i := i + 1;
      }
      assert oks[..i] == oks;
    }

    /** The comparison of one path; a GET that fails leaves the status uninitialised. */
    method ComparePath(w: World, p: Path)
      requires p in w.local
      modifies this
      ensures Value() == CheckPath(w, old(Value()), p)
    {
      ghost var s := Value();
      var content := ContentOf(w.local[p].node);
      Wait(w, Within);
      var stale := w.junk(|log|);
      var reply := Compare(w.hash, server, p, w.hash(content));
      WaitedKeeps(w, s, Within);
      var ok := Connect(w, Syncing, Get(p, content));
      if ok {
        stale := AsksForPost(reply);
      }
      if stale {
        Wait(w, Within);
        PostMethod(w, Syncing, p);
      }
    }

    method Checksync(w: World)
      requires VisitsLocal(w)
      modifies this
      ensures Value() == Sync.CheckSync(w, old(Value()))
    {
      ghost var s := Value();
      var order := w.visit(|log|);
      log := log + [SyncStart(deletedFiles)];
      var i := 0;
      while i < |deletedFiles|
        invariant 0 <= i <= |deletedFiles| && deletedFiles == s.deleted
        invariant Value() == Drain(w, Marked(s), s.deleted[..i])
      {
        DrainNext(w, Marked(s), s.deleted, i);
        Wait(w, Within);
        DeleteMethod(w, Syncing, deletedFiles[i]);
        i := i + 1;
      }
      assert s.deleted[..i] == s.deleted;
      deletedFiles := [];
      i := 0;
      while i < |order|
        invariant 0 <= i <= |order| && Listed(order, w.local)
        invariant Value() == CheckAll(w, Drained(w, s), order[..i])
      {
        CheckAllNext(w, Drained(w, s), order, i);
        ComparePath(w, order[i]);
        i := i + 1;
      }
      assert order[..i] == order;
    }

    /** The action run for each event of the watcher. */
    method Action(w: World, e: Event)
      requires VisitsLocal(w)
      modifies this
      ensures Value() == React(w, SyncIfDue(w, old(Value())), e)
    {
      if checkConnection == 1 {
        Checksync(w);
      }
      if e.path !in w.local && e.status != Erased {
        return;
      }
      Wait(w, Late);
      match e.status
      case Created =>
        PostMethod(w, Watching, e.path);
      case Modified =>
        PostMethod(w, Watching, e.path);
      case Erased =>
        DeleteMethod(w, Watching, e.path);
        Wait(w, Unqueued(e.path));
        if checkConnection == 0 {
          deletedFiles := deletedFiles + [e.path];
        }
    }

    /** One turn of the main loop. */
    method Turn(w: World) returns (events: seq<Event>)
      requires VisitsLocal(w)
      modifies this, watcher
      ensures IsScan(old(watcher.paths), TimesOf(w.local), events)
      ensures watcher.paths == TimesOf(w.local)
      ensures Value() == Tick(w, old(Value()), events)
    {
      if checkConnection == 1 {
        Checksync(w);
      }
      ghost var s := Value();
      events := watcher.Start(TimesOf(w.local));
      var i := 0;
      while i < |events|
        invariant 0 <= i <= |events| && watcher.paths == TimesOf(w.local)
        invariant Value() == OnEvents(w, s, events[..i])
      {
        OnEventsNext(w, s, events, i);
        Wait(w, Early);
        Action(w, events[i]);
        i := i + 1;
      }
      assert events[..i] == events;
    }
  }

  // ----- one more turn of each loop -----

  lemma DrainNext(w: World, s: State, xs: seq<Path>, i: nat)
    requires i < |xs|
    ensures Drain(w, s, xs[..i + 1]) == SyncSend(w, Drain(w, s, xs[..i]), Remove(xs[i]))
    ensures Drain(w, s, xs[..i + 1]).deleted == s.deleted
  {
    assert xs[..i + 1][..i] == xs[..i];
    DrainAttempts(w, s, xs[..i + 1]);
  }

  lemma CheckAllNext(w: World, s: State, ps: seq<Path>, i: nat)
    requires Listed(ps, w.local) && i < |ps|
    ensures CheckAll(w, s, ps[..i + 1]) == CheckPath(w, CheckAll(w, s, ps[..i]), ps[i])
  {
    assert ps[..i + 1][..i] == ps[..i];
  }

  lemma OnEventsNext(w: World, s: State, events: seq<Event>, i: nat)
    requires VisitsLocal(w) && i < |events|
    ensures OnEvents(w, s, events[..i + 1]) == OnEvent(w, OnEvents(w, s, events[..i]), events[i])
  {
    assert events[..i + 1][..i] == events[..i];
  }
}
