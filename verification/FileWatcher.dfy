/** The client's file watcher: a two-pass diff of its map against the watched tree. */
module FileWatcher {
  import opened Text
  import opened FileTree

  type Times = map<Path, int>

  datatype FileStatus = Created | Modified | Erased

  datatype Event = Event(path: Path, status: FileStatus)

  /** What is to be said of a path when the map `was` is compared with the tree `now`. */
  function Due(was: Times, now: Times, p: Path): Option<FileStatus> {
    if p in was && p !in now then Some(Erased)
    else if p !in was && p in now then Some(Created)
    else if p in was && p in now && was[p] != now[p] then Some(Modified)
    else None
  }

  /** No two events are about the same path. */
  predicate OncePerPath(events: seq<Event>) {
    forall i, j :: 0 <= i < j < |events| ==> events[i].path != events[j].path
  }

  /** Erasures are reported before anything else. */
  predicate ErasuresFirst(events: seq<Event>) {
    forall i, j :: 0 <= i < j < |events| && events[j].status == Erased ==> events[i].status == Erased
  }

  /** `events` reports exactly the difference from `was` to `now`. */
  ghost predicate IsScan(was: Times, now: Times, events: seq<Event>) {
    && OncePerPath(events) && ErasuresFirst(events)
    && forall e :: e in events <==> Due(was, now, e.path) == Some(e.status)
  }

  lemma OneMoreEvent(events: seq<Event>, e: Event)
    requires OncePerPath(events) && forall f :: f in events ==> f.path != e.path
    ensures OncePerPath(events + [e])
    ensures forall f :: f in events + [e] <==> f in events || f == e
  {
  }

  class FileWatcher {
    var paths: Times

    /** The snapshot taken at construction. */
    constructor (snapshot: Times)
      ensures paths == snapshot
    {
      paths := snapshot;
    }

    /** Erase the paths that are gone, in any order. */
    method EraseGone(now: Times) returns (events: seq<Event>)
      modifies this
      ensures paths == map p | p in old(paths) && p in now :: old(paths)[p]
      ensures OncePerPath(events)
      ensures forall e :: e in events <==> e.status == Erased && Due(old(paths), now, e.path) == Some(Erased)
    {
      events := [];
      ghost var was := paths;
      var todo := paths.Keys;
      while todo != {}
        invariant todo <= was.Keys
        invariant forall p :: p in paths <==> p in was && (p in now || p in todo)
        invariant forall p :: p in paths ==> paths[p] == was[p]
        invariant OncePerPath(events)
        invariant forall e :: e in events <==>
                    e.status == Erased && Due(was, now, e.path) == Some(Erased) && e.path !in todo
        decreases |todo|
      {
        var p :| p in todo;
        todo := todo - {p};
        if p !in now {
          OneMoreEvent(events, Event(p, Erased));
          events := events + [Event(p, Erased)];
          paths := paths - {p};
        }
      }
    }

    /** Report new and changed paths, in any order, and record their times. */
    method RecordCurrent(now: Times) returns (events: seq<Event>)
      requires paths.Keys <= now.Keys
      modifies this
      ensures paths == now
      ensures OncePerPath(events)
      ensures forall e :: e in events <==> Due(old(paths), now, e.path) == Some(e.status)
    {
      events := [];
      ghost var was := paths;
      var todo := now.Keys;
      while todo != {}
        invariant todo <= now.Keys
        invariant forall p :: p in paths <==> p in was || (p in now && p !in todo)
        invariant forall p :: p in paths ==> paths[p] == if p in todo then was[p] else now[p]
        invariant OncePerPath(events)
        invariant forall e :: e in events <==> Due(was, now, e.path) == Some(e.status) && e.path !in todo
        decreases |todo|
      {
        var p :| p in todo;
        todo := todo - {p};
        if p !in paths {
          OneMoreEvent(events, Event(p, Created));
          paths := paths[p := now[p]];
          events := events + [Event(p, Created)];
        } else if paths[p] != now[p] {
          OneMoreEvent(events, Event(p, Modified));
          paths := paths[p := now[p]];
          events := events + [Event(p, Modified)];
        }
      }
    }

    /** One scan of a tree that stands still; the events are in the order the action is run. */
    method Start(now: Times) returns (events: seq<Event>)
      modifies this
      ensures paths == now && IsScan(old(paths), now, events)
      ensures Reported(events, FileStatus.Created) == now.Keys - old(paths).Keys
      ensures Reported(events, Erased) == old(paths).Keys - now.Keys
      ensures Reported(events, Modified) == set p | p in old(paths) && p in now && old(paths)[p] != now[p]
    {
      var erased := EraseGone(now);
      ghost var kept := paths;
      var current := RecordCurrent(now);
      assert forall p :: Due(kept, now, p) ==
                         (if Due(old(paths), now, p) == Some(Erased) then None else Due(old(paths), now, p));
      events := erased + current;
      JoinScans(old(paths), now, erased, current);
      ScanReports(old(paths), now, events);
    }
  }

  /** The paths about which an event of this status is reported. */
  function Reported(events: seq<Event>, status: FileStatus): set<Path> {
    set e | e in events && e.status == status :: e.path
  }

  /** A scan reports as created exactly the new paths, as erased exactly those that are gone, and as
      modified exactly those whose times differ. */
  lemma ScanReports(was: Times, now: Times, events: seq<Event>)
    requires IsScan(was, now, events)
    ensures Reported(events, FileStatus.Created) == now.Keys - was.Keys
    ensures Reported(events, Erased) == was.Keys - now.Keys
    ensures Reported(events, Modified) == set p | p in was && p in now && was[p] != now[p]
  {
    forall p
      ensures p in Reported(events, FileStatus.Created) <==> p in now.Keys - was.Keys
      ensures p in Reported(events, Erased) <==> p in was.Keys - now.Keys
      ensures p in Reported(events, Modified) <==> p in was && p in now && was[p] != now[p]
    {
      ReportedIfDue(was, now, events, p, FileStatus.Created);
      ReportedIfDue(was, now, events, p, Erased);
      ReportedIfDue(was, now, events, p, Modified);
    }
  }

  lemma ReportedIfDue(was: Times, now: Times, events: seq<Event>, p: Path, status: FileStatus)
    requires IsScan(was, now, events)
    ensures p in Reported(events, status) <==> Due(was, now, p) == Some(status)
  {
    assert Event(p, status) in events <==> Due(was, now, Event(p, status).path) == Some(status);
    if p in Reported(events, status) {
      var e :| e in events && e.status == status && e.path == p;
      assert e == Event(p, status);
    } else {
      assert Event(p, status) !in events;
    }
  }

  /** Erasures, then everything else, make a scan. */
  lemma JoinScans(was: Times, now: Times, a: seq<Event>, b: seq<Event>)
    requires OncePerPath(a) && OncePerPath(b)
    requires forall e :: e in a <==> e.status == Erased && Due(was, now, e.path) == Some(Erased)
    requires forall e :: e in b <==> e.status != Erased && Due(was, now, e.path) == Some(e.status)
    ensures IsScan(was, now, a + b)
  {
    forall i | 0 <= i < |a|
      ensures a[i] in a
    {
    }
    forall i | 0 <= i < |b|
      ensures b[i] in b
    {
    }
    forall e
      ensures e in a + b <==> Due(was, now, e.path) == Some(e.status)
    {
    }
  }

  // ----- what a scan means -----

  function Apply(t: Times, now: Times, e: Event): Times {
    if e.status == Erased then t - {e.path}
    else if e.path in now then t[e.path := now[e.path]]
    else t
  }

  function Replay(t: Times, now: Times, events: seq<Event>): Times
    decreases |events|
  {
    if events == [] then t else Replay(Apply(t, now, events[0]), now, events[1..])
  }

  /** The events of a scan turn the old map into the new one. */
  lemma {:induction false} ReplayScan(t: Times, now: Times, events: seq<Event>)
    requires IsScan(t, now, events)
    ensures Replay(t, now, events) == now
    decreases |events|
  {
    if events == [] {
      forall p
        ensures p in t <==> p in now
        ensures p in t && p in now ==> t[p] == now[p]
      {
        assert Event(p, Erased) !in events && Event(p, Created) !in events && Event(p, Modified) !in events;
      }
      assert t == now;
    } else {
      RestOfScan(t, now, events);
      ReplayScan(Apply(t, now, events[0]), now, events[1..]);
    }
  }

  lemma RestOfScan(t: Times, now: Times, events: seq<Event>)
    requires IsScan(t, now, events) && events != []
    ensures IsScan(Apply(t, now, events[0]), now, events[1..])
  {
    var e, rest := events[0], events[1..];
    var t' := Apply(t, now, e);
    assert e in events;
    assert Due(t', now, e.path).None?;
    assert forall p :: p != e.path ==> Due(t', now, p) == Due(t, now, p);
    assert events == [e] + rest;
    forall f
      ensures f in rest <==> Due(t', now, f.path) == Some(f.status)
    {
      assert f in events <==> f == e || f in rest;
      if f in rest {
        var i :| 0 <= i < |rest| && rest[i] == f;
        assert events[i + 1] == f;
      }
    }
  }

  /** A scan of an unchanged tree reports nothing. */
  lemma QuietScan(now: Times, events: seq<Event>)
    requires IsScan(now, now, events)
    ensures events == []
  {
    assert forall p :: Due(now, now, p).None?;
    FirstIsIn(events);
  }

  lemma FirstIsIn(events: seq<Event>)
    ensures events != [] ==> events[0] in events
  {
  }

  /** The visiting order does not matter: two scans report the same events, each once. */
  lemma OrderDoesNotMatter(was: Times, now: Times, a: seq<Event>, b: seq<Event>)
    requires IsScan(was, now, a) && IsScan(was, now, b)
    ensures multiset(a) == multiset(b)
  {
    forall e: Event
      ensures multiset(a)[e] == multiset(b)[e]
    {
      OnceEach(a, e);
      OnceEach(b, e);
    }
  }

  lemma {:induction false} OnceEach(a: seq<Event>, e: Event)
    requires OncePerPath(a)
    ensures multiset(a)[e] == if e in a then 1 else 0
    decreases |a|
  {
    if a != [] {
      var k := |a| - 1;
      OnceEach(a[..k], e);
      assert a == a[..k] + [a[k]];
      assert forall i :: 0 <= i < k ==> a[..k][i].path != a[k].path;
    }
  }
}
