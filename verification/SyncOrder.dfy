/** The order of requests: the queue is replayed first in, first out, a checksync compares paths in the
    order it visits them, and the watcher sends one request for each event, in turn. */
module SyncOrder {
  import opened FileTree
  import opened FileWatcher
  import opened Sync
  import opened SyncSteps
  import opened SyncEvents

  /** The calls of one maker, in order. */
  function CallsBy(log: seq<Entry>, origin: Origin): seq<Call> {
    if log == [] then []
    else
      var before, e := CallsBy(log[..|log| - 1], origin), log[|log| - 1];
      if e.Attempt? && e.origin == origin then before + [e.call] else before
  }

  lemma OneMoreCall(log: seq<Entry>, e: Entry, origin: Origin)
    ensures CallsBy(log + [e], origin) ==
            if e.Attempt? && e.origin == origin then CallsBy(log, origin) + [e.call] else CallsBy(log, origin)
  {
    assert (log + [e])[..|log|] == log;
  }

  lemma AppendLast<T>(a: seq<T>, xs: seq<T>)
    requires xs != []
    ensures a + xs[..|xs| - 1] + [xs[|xs| - 1]] == a + xs
  {
    assert xs == xs[..|xs| - 1] + [xs[|xs| - 1]];
  }

  /** Probes are nobody's requests. */
  lemma {:induction false} ProbesCallNothing(s: State, moment: Moment, oks: seq<bool>, origin: Origin)
    requires !origin.Probing?
    ensures CallsBy(Probes(s, moment, oks).log, origin) == CallsBy(s.log, origin)
    decreases |oks|
  {
    if oks != [] {
      var k := |oks| - 1;
      ProbesCallNothing(s, moment, oks[..k], origin);
      OneMoreCall(Probes(s, moment, oks[..k]).log, Attempt(Probing(moment), Hello("reconnect"), oks[k]), origin);
    }
  }

  lemma SyncSendCalls(w: World, s: State, call: Call)
    ensures CallsBy(SyncSend(w, s, call).log, Syncing) == CallsBy(s.log, Syncing) + [call]
    ensures CallsBy(SyncSend(w, s, call).log, Watching) == CallsBy(s.log, Watching)
  {
    var s1 := Waited(w, s, Within);
    var e := Attempt(Syncing, call, w.up(|s1.log|));
    ProbesCallNothing(s, Within, w.timer(|s.log|, Within), Syncing);
    ProbesCallNothing(s, Within, w.timer(|s.log|, Within), Watching);
    OneMoreCall(s1.log, e, Syncing);
    OneMoreCall(s1.log, e, Watching);
  }

  // ----- checksync -----

  function Removals(xs: seq<Path>): (calls: seq<Call>)
    ensures |calls| == |xs| && forall i :: 0 <= i < |xs| ==> calls[i] == Remove(xs[i])
  {
    seq(|xs|, i requires 0 <= i < |xs| => Remove(xs[i]))
  }

  /** The queue is replayed in its own order, each path once, whatever connects. */
  lemma {:induction false} DrainInOrder(w: World, s: State, xs: seq<Path>)
    ensures CallsBy(Drain(w, s, xs).log, Syncing) == CallsBy(s.log, Syncing) + Removals(xs)
    ensures CallsBy(Drain(w, s, xs).log, Watching) == CallsBy(s.log, Watching)
    decreases |xs|
  {
    if xs != [] {
      var k := |xs| - 1;
      DrainInOrder(w, s, xs[..k]);
      SyncSendCalls(w, Drain(w, s, xs[..k]), Remove(xs[k]));
      assert Removals(xs)[..k] == Removals(xs[..k]);
      AppendLast(CallsBy(s.log, Syncing), Removals(xs));
    }
  }

  /** The paths a checksync has compared, in order. */
  function ComparedPaths(calls: seq<Call>): seq<Path> {
    if calls == [] then []
    else
      var before, call := ComparedPaths(calls[..|calls| - 1]), calls[|calls| - 1];
      if call.Get? then before + [call.path] else before
  }

  lemma OneMoreCompared(calls: seq<Call>, call: Call)
    ensures ComparedPaths(calls + [call]) ==
            if call.Get? then ComparedPaths(calls) + [call.path] else ComparedPaths(calls)
  {
    assert (calls + [call])[..|calls|] == calls;
  }

  lemma CheckPathCalls(w: World, s: State, p: Path)
    requires p in w.local
    ensures var before, after := CallsBy(s.log, Syncing), CallsBy(CheckPath(w, s, p).log, Syncing);
            after == before + [Get(p, LocalContent(w, p))] +
                     (if Stale(w, s, p) then [Put(p, LocalContent(w, p))] else [])
    ensures CallsBy(CheckPath(w, s, p).log, Watching) == CallsBy(s.log, Watching)
  {
    SyncSendCalls(w, s, Get(p, LocalContent(w, p)));
    SyncSendCalls(w, Compared(w, s, p), Put(p, LocalContent(w, p)));
  }

  /** A comparison that connects is followed by an upload exactly when the server holds nothing there,
      or something with another digest. */
  lemma UploadFollowsComparison(w: World, s: State, p: Path)
    requires p in w.local && Connects(w, s)
    ensures var before, after := CallsBy(s.log, Syncing), CallsBy(CheckPath(w, s, p).log, Syncing);
            var get, put := Get(p, LocalContent(w, p)), Put(p, LocalContent(w, p));
            var stored := if p in s.server && s.server[p].File? then s.server[p].content else "";
            var local := if w.local[p].node.File? then w.local[p].node.content else "";
            after == if p !in s.server || w.hash(stored) != w.hash(local) then before + [get, put] else before + [get]
  {
    CheckPathCalls(w, s, p);
  }

  lemma CheckPathCompares(w: World, s: State, p: Path)
    requires p in w.local
    ensures ComparedPaths(CallsBy(CheckPath(w, s, p).log, Syncing)) ==
            ComparedPaths(CallsBy(s.log, Syncing)) + [p]
    ensures CallsBy(CheckPath(w, s, p).log, Watching) == CallsBy(s.log, Watching)
  {
    var calls, get, put := CallsBy(s.log, Syncing), Get(p, LocalContent(w, p)), Put(p, LocalContent(w, p));
    CheckPathCalls(w, s, p);
    OneMoreCompared(calls, get);
    OneMoreCompared(calls + [get], put);
    assert calls + [get] + [] == calls + [get];
  }

  /** Every path visited is compared once, in the order of the visit, whatever connects. */
  lemma {:induction false} ComparedInOrder(w: World, s: State, ps: seq<Path>)
    requires Listed(ps, w.local)
    ensures ComparedPaths(CallsBy(CheckAll(w, s, ps).log, Syncing)) ==
            ComparedPaths(CallsBy(s.log, Syncing)) + ps
    ensures CallsBy(CheckAll(w, s, ps).log, Watching) == CallsBy(s.log, Watching)
    decreases |ps|
  {
    if ps != [] {
      var k := |ps| - 1;
      ComparedInOrder(w, s, ps[..k]);
      CheckPathCompares(w, CheckAll(w, s, ps[..k]), ps[k]);
      AppendLast(ComparedPaths(CallsBy(s.log, Syncing)), ps);
    }
  }

  // ----- the watcher -----

  /** What the watcher asks for an event. */
  function CallFor(w: World, e: Event): Call
    requires e.status != Erased ==> e.path in w.local
  {
    if e.status == Erased then Remove(e.path) else Put(e.path, LocalContent(w, e.path))
  }

  lemma CheckSyncCallsNone(w: World, s: State)
    requires VisitsLocal(w)
    ensures CallsBy(SyncIfDue(w, s).log, Watching) == CallsBy(s.log, Watching)
  {
    OneMoreCall(s.log, SyncStart(s.deleted), Watching);
    DrainInOrder(w, Marked(s), s.deleted);
    ComparedInOrder(w, Drained(w, s), w.visit(|s.log|));
  }

  lemma ReactCalls(w: World, s: State, e: Event)
    requires e.status != Erased ==> e.path in w.local
    ensures CallsBy(React(w, s, e).log, Watching) == CallsBy(s.log, Watching) + [CallFor(w, e)]
  {
    var s1 := Waited(w, s, Late);
    ProbesCallNothing(s, Late, w.timer(|s.log|, Late), Watching);
    OneMoreCall(s1.log, Attempt(Watching, CallFor(w, e), w.up(|s1.log|)), Watching);
    if e.status == Erased {
      var s2 := DeletePath(w, s1, Watching, e.path);
      ProbesCallNothing(s2, Unqueued(e.path), w.timer(|s2.log|, Unqueued(e.path)), Watching);
    }
  }

  lemma EventCalls(w: World, s: State, e: Event)
    requires VisitsLocal(w) && (e.status != Erased ==> e.path in w.local)
    ensures CallsBy(OnEvent(w, s, e).log, Watching) == CallsBy(s.log, Watching) + [CallFor(w, e)]
  {
    ProbesCallNothing(s, Early, w.timer(|s.log|, Early), Watching);
    CheckSyncCallsNone(w, Waited(w, s, Early));
    ReactCalls(w, Tested(w, s), e);
  }

  /** The watcher sends one request for each event, in the order of the scan, whatever connects. */
  lemma {:induction false} EventsInOrder(w: World, s: State, events: seq<Event>)
    requires VisitsLocal(w)
    requires forall i :: 0 <= i < |events| && events[i].status != Erased ==> events[i].path in w.local
    ensures CallsBy(OnEvents(w, s, events).log, Watching) == CallsBy(s.log, Watching) + CallsFor(w, events)
    decreases |events|
  {
    if events != [] {
      var k := |events| - 1;
      var s1 := OnEvents(w, s, events[..k]);
      EventsInOrder(w, s, events[..k]);
      EventCalls(w, s1, events[k]);
      assert CallsFor(w, events)[..k] == CallsFor(w, events[..k]);
      AppendLast(CallsBy(s.log, Watching), CallsFor(w, events));
    }
  }

  function CallsFor(w: World, events: seq<Event>): (calls: seq<Call>)
    requires forall i :: 0 <= i < |events| && events[i].status != Erased ==> events[i].path in w.local
    ensures |calls| == |events| && forall i :: 0 <= i < |events| ==> calls[i] == CallFor(w, events[i])
  {
    seq(|events|, i requires 0 <= i < |events| => CallFor(w, events[i]))
  }

  /** A removal is queued behind those before it: exactly when it fails to connect and the counter is
      still zero at the queue test. */
  lemma QueuedInOrder(w: World, s: State, e: Event)
    requires s.connection >= 0
    ensures var s1 := Waited(w, s, Late);
            var waits := e.status == Erased && !w.up(|s1.log|)
                         && Waited(w, DeletePath(w, s1, Watching, e.path), Unqueued(e.path)).connection == 0;
            React(w, s, e).deleted == if waits then s.deleted + [e.path] else s.deleted
  {
    var s1 := Waited(w, s, Late);
    WaitedKeeps(w, s, Late);
    if e.status == Erased {
      WaitedKeeps(w, DeletePath(w, s1, Watching, e.path), Unqueued(e.path));
    }
  }
}
