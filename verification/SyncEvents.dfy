/** One event of a scan: what the watcher's action keeps, and exactly when a reconnect probe in the
    middle of it breaks that. */
module SyncEvents {
  import opened FileTree
  import opened FileWatcher
  import opened Sync
  import opened SyncSteps
  import opened SyncHistory
  import opened SyncCounter
  import opened SyncOutages

  // ----- the middle of a scan -----

  /** An event about `p` is still to come. */
  predicate Coming(rest: seq<Event>, p: Path) { Event(p, FileStatus.Created) in rest || Event(p, Modified) in rest }

  /** While the events `rest` are still to be handled: whatever a tree holds below the root is
      local, queued for deletion, about to be reported erased, or `stale`. */
  ghost predicate InCover(root: Path, w: World, stale: iset<Path>, t: Tree, deleted: seq<Path>, rest: seq<Event>) {
    forall q :: q in t && root < q ==> q in w.local || q in deleted || Event(q, Erased) in rest || q in stale
  }

  ghost predicate Based(root: Path, w: World, stale: iset<Path>, s: State, rest: seq<Event>) {
    GoodServer(root, s.server) && s.connection >= 0 && InCover(root, w, stale, s.server, s.deleted, rest)
  }

  /** No deletion is queued and every local path not about to be reported is backed up. */
  predicate Current(w: World, s: State, rest: seq<Event>) {
    s.deleted == [] && forall p :: p in w.local && !Coming(rest, p) ==> BackedAt(w.hash, s.server, w.local, p)
  }

  /** The invariant between two events. */
  ghost predicate Sound(root: Path, w: World, stale: iset<Path>, s: State, rest: seq<Event>) {
    Based(root, w, stale, s, rest) && (s.connection >= 2 ==> Current(w, s, rest))
  }

  /** The invariant after the counter test of the action, and the checksync it may have called. */
  ghost predicate Ready(root: Path, w: World, stale: iset<Path>, s: State, rest: seq<Event>) {
    Based(root, w, stale, s, rest) && (s.connection >= 1 ==> Current(w, s, rest))
  }

  /** Events of a scan: what is erased is not local and lies below the root, the rest is local. */
  predicate EventFits(root: Path, w: World, e: Event) {
    if e.status == Erased then e.path !in w.local && root < e.path else e.path in w.local
  }

  // ----- the history -----

  lemma ReactLog(w: World, s: State, e: Event)
    ensures s.log <= React(w, s, e).log
  {
    var s1 := Waited(w, s, Late);
    WaitedKeeps(w, s, Late);
    if e.status == Erased {
      WaitedKeeps(w, DeletePath(w, s1, Watching, e.path), Unqueued(e.path));
    }
  }

  lemma SyncIfDueLog(w: World, s: State)
    requires VisitsLocal(w)
    ensures s.log <= SyncIfDue(w, s).log
  {
    CheckSyncLog(w, s);
  }

  /** The state right after the counter test. */
  ghost function Tested(w: World, s: State): State
    requires VisitsLocal(w)
  {
    SyncIfDue(w, Waited(w, s, Early))
  }

  lemma OnEventLog(w: World, s: State, e: Event)
    requires VisitsLocal(w)
    ensures s.log <= Waited(w, s, Early).log <= Tested(w, s).log <= OnEvent(w, s, e).log
  {
    WaitedKeeps(w, s, Early);
    SyncIfDueLog(w, Waited(w, s, Early));
    ReactLog(w, Tested(w, s), e);
  }

  // ----- up to the test -----

  lemma WaitedSound(root: Path, w: World, stale: iset<Path>, s: State, rest: seq<Event>, moment: Moment)
    requires Sound(root, w, stale, s, rest)
    ensures Sound(root, w, stale, Waited(w, s, moment), rest)
  {
    WaitedKeeps(w, s, moment);
  }

  /** A counter at one calls for a checksync, which makes everything current. */
  lemma TestReadies(root: Path, w: World, stale: iset<Path>, s: State, rest: seq<Event>)
    requires VisitsLocal(w) && GoodLocal(root, w.local) && Sound(root, w, stale, s, rest)
    requires NoSyncOutage(SyncIfDue(w, s).log, |s.log|)
    ensures Ready(root, w, stale, SyncIfDue(w, s), rest)
    ensures s.connection >= 1 ==> SyncIfDue(w, s).connection >= s.connection
  {
    if s.connection == 1 {
      CheckSyncOnline(root, w, s);
    }
  }

  /** The checksync that the counter calls for leaves nothing stale but what is still to be
      reported, and if its last attempt connects it leaves every local path backed up that is not
      still to be reported. */
  ghost predicate TestHarmless(root: Path, w: World, stale: iset<Path>, s: State, rest: seq<Event>)
    requires VisitsLocal(w)
  {
    s.connection == 1 ==>
      && (forall x :: x in s.server && root < x && x !in w.local && x !in stale && Event(x, Erased) !in rest ==>
            Delivered(w, s, x))
      && (!LastAttemptFailed(CheckSync(w, s).log) ==>
            forall p :: p in w.local && !Coming(rest, p) ==> Repaired(w, s, p))
  }

  /** The test, with outages anywhere in the checksync: exactly when the action may go on. */
  lemma TestExactly(root: Path, w: World, stale: iset<Path>, s: State, rest: seq<Event>)
    requires VisitsLocal(w) && GoodLocal(root, w.local) && Sound(root, w, stale, s, rest) && Counts(s)
    ensures Ready(root, w, stale, SyncIfDue(w, s), rest) <==> TestHarmless(root, w, stale, s, rest)
  {
    if s.connection == 1 {
      SyncExactly(root, w, stale, s, rest);
    }
  }

  lemma SyncExactly(root: Path, w: World, stale: iset<Path>, s: State, rest: seq<Event>)
    requires VisitsLocal(w) && GoodLocal(root, w.local) && GoodServer(root, s.server)
    requires Counts(s) && s.connection == 1
    ensures Ready(root, w, stale, CheckSync(w, s), rest) <==> TestHarmless(root, w, stale, s, rest)
  {
    var r := CheckSync(w, s);
    CheckSyncCounts(w, s);
    CountIsZero(r.log);
    SyncCovers(root, w, stale, s, rest);
    SyncBacks(root, w, s, rest);
  }

  lemma SyncCovers(root: Path, w: World, stale: iset<Path>, s: State, rest: seq<Event>)
    requires VisitsLocal(w) && GoodLocal(root, w.local) && GoodServer(root, s.server)
    ensures CheckSync(w, s).deleted == [] && GoodServer(root, CheckSync(w, s).server)
    ensures InCover(root, w, stale, CheckSync(w, s).server, [], rest) <==>
            forall x :: x in s.server && root < x && x !in w.local && x !in stale && Event(x, Erased) !in rest ==>
              Delivered(w, s, x)
  {
    var all := iset q | q in stale || Event(q, Erased) in rest;
    SweptExactly(root, w, all, s);
  }

  lemma SyncBacks(root: Path, w: World, s: State, rest: seq<Event>)
    requires VisitsLocal(w) && GoodLocal(root, w.local) && GoodServer(root, s.server)
    ensures Current(w, CheckSync(w, s), rest) <==>
            CheckSync(w, s).deleted == [] && forall p :: p in w.local && !Coming(rest, p) ==> Repaired(w, s, p)
  {
    forall q | q in w.local
      ensures BackedAt(w.hash, CheckSync(w, s).server, w.local, q) <==> Repaired(w, s, q)
    {
      BackedExactly(root, w, s, q);
    }
  }

  // ----- the request -----

  lemma InRest(e: Event, rest: seq<Event>)
    ensures forall f :: f in [e] + rest <==> f == e || f in rest
  {
  }

  lemma ComingOneMore(e: Event, rest: seq<Event>, p: Path)
    ensures Coming([e] + rest, p) <==> Coming(rest, p) || (p == e.path && e.status != Erased)
  {
    InRest(e, rest);
  }

  lemma UploadCovers(root: Path, w: World, stale: iset<Path>, t: Tree, r: Tree, deleted: seq<Path>,
                     e: Event, rest: seq<Event>)
    requires GoodLocal(root, w.local) && e.status != Erased && e.path in w.local
    requires Uploaded(root, t, r, e.path, Stored(w.local[e.path].node))
    requires InCover(root, w, stale, t, deleted, [e] + rest)
    ensures InCover(root, w, stale, r, deleted, rest)
  {
    InRest(e, rest);
    forall q | q in r && root < q
      ensures q in w.local || q in deleted || Event(q, Erased) in rest || q in stale
    {
      if q !in t {
        LocalAbove(root, w.local, e.path, q);
      }
    }
  }

  /** The watcher's POST keeps the cover. */
  lemma PostBased(root: Path, w: World, stale: iset<Path>, s: State, e: Event, rest: seq<Event>)
    requires GoodLocal(root, w.local) && Based(root, w, stale, s, [e] + rest)
    requires e.status != Erased && e.path in w.local
    ensures Based(root, w, stale, PostPath(w, s, Watching, e.path), rest)
  {
    if w.up(|s.log|) {
      UploadLocal(root, w.local, s.server, e.path);
      UploadCovers(root, w, stale, s.server, PostPath(w, s, Watching, e.path).server, s.deleted, e, rest);
    } else {
      InRest(e, rest);
    }
  }

  /** And backs up, besides what was, exactly the path and what lies above it. */
  lemma PostBacks(root: Path, w: World, s: State, origin: Origin, p: Path, q: Path)
    requires GoodLocal(root, w.local) && GoodServer(root, s.server) && p in w.local && q in w.local
    ensures BackedAt(w.hash, PostPath(w, s, origin, p).server, w.local, q) <==>
            BackedAt(w.hash, s.server, w.local, q) || (w.up(|s.log|) && q <= p)
  {
    if w.up(|s.log|) {
      UploadLocal(root, w.local, s.server, p);
      UploadedBacks(root, w.hash, w.local, s.server, PostPath(w, s, origin, p).server, p, q);
    }
  }

  /** The watcher's DELETE keeps the cover if it is delivered; if not, exactly if the path was not
      on the server, or is covered otherwise. */
  lemma DeleteBased(root: Path, w: World, stale: iset<Path>, s: State, p: Path, rest: seq<Event>)
    requires GoodLocal(root, w.local) && Based(root, w, stale, s, [Event(p, Erased)] + rest)
    requires p !in w.local && root < p && Event(p, Erased) !in rest
    ensures var r := DeletePath(w, s, Watching, p);
      && GoodServer(root, r.server) && r.connection >= 0 && r.deleted == s.deleted
      && (w.up(|s.log|) ==> Based(root, w, stale, r, rest))
      && InCover(root, w, stale, s.server, s.deleted + [p], rest)
      && (InCover(root, w, stale, s.server, s.deleted, rest) <==>
          p !in s.server || p in s.deleted || p in stale)
  {
    InRest(Event(p, Erased), rest);
    DeleteGood(root, s.server, p);
    assert p <= p;
  }

  /** And takes no local path away. */
  lemma DeleteBacks(root: Path, w: World, s: State, p: Path, q: Path)
    requires GoodLocal(root, w.local) && GoodServer(root, s.server) && p !in w.local && root < p && q in w.local
    ensures BackedAt(w.hash, DeletePath(w, s, Watching, p).server, w.local, q) <==>
            BackedAt(w.hash, s.server, w.local, q)
  {
    DeleteGood(root, s.server, p);
    LocalAbove(root, w.local, q, p);
  }

  // ----- the two windows -----

  /** From the tested state `s` a probe succeeds before the request, and the request connects: the
      counter reaches two and no checksync is called. */
  predicate SkipsSync(w: World, s: State) {
    var s1 := Waited(w, s, Late);
    s.connection == 0 && s1.connection != 0 && w.up(|s1.log|)
  }

  /** From the state `s` before the request the removal of `p` fails, and a probe succeeds before
      the queue test: the removal is not queued. */
  predicate SlipsQueue(w: World, s: State, p: Path) {
    !w.up(|s.log|) && Waited(w, DeletePath(w, s, Watching, p), Unqueued(p)).connection != 0
  }

  /** What the skipped checksync would have done is not needed: nothing is queued, and every local
      path not about to be reported is backed up already, or by this request. */
  predicate NothingMissed(w: World, s: State, e: Event, rest: seq<Event>) {
    && s.deleted == []
    && forall p :: p in w.local && !Coming(rest, p) ==>
         BackedAt(w.hash, s.server, w.local, p) || (e.status != Erased && p <= e.path)
  }

  /** The event meets no window that matters, from the tested state `s` on. */
  ghost predicate HarmlessFrom(w: World, stale: iset<Path>, s: State, e: Event, rest: seq<Event>) {
    && (SkipsSync(w, s) ==> NothingMissed(w, s, e, rest))
    && (e.status == Erased && SlipsQueue(w, Waited(w, s, Late), e.path) ==>
          e.path !in s.server || e.path in s.deleted || e.path in stale)
  }

  /** After a POST everything is current exactly if it was but for what the POST backs up. */
  lemma PostCurrent(root: Path, w: World, s: State, e: Event, rest: seq<Event>)
    requires GoodLocal(root, w.local) && GoodServer(root, s.server) && w.up(|s.log|)
    requires e.status != Erased && e.path in w.local
    ensures Current(w, PostPath(w, s, Watching, e.path), rest) <==> NothingMissed(w, s, e, rest)
    ensures Current(w, s, [e] + rest) ==> NothingMissed(w, s, e, rest)
  {
    forall p | p in w.local
      ensures BackedAt(w.hash, PostPath(w, s, Watching, e.path).server, w.local, p) <==>
              BackedAt(w.hash, s.server, w.local, p) || p <= e.path
      ensures !Coming(rest, p) ==> !Coming([e] + rest, p) || p == e.path
    {
      PostBacks(root, w, s, Watching, e.path, p);
      ComingOneMore(e, rest, p);
    }
  }

  lemma DeleteCurrent(root: Path, w: World, s: State, e: Event, rest: seq<Event>)
    requires GoodLocal(root, w.local) && GoodServer(root, s.server)
    requires e.status == Erased && e.path !in w.local && root < e.path
    ensures Current(w, DeletePath(w, s, Watching, e.path), rest) <==> NothingMissed(w, s, e, rest)
    ensures Current(w, s, [e] + rest) ==> NothingMissed(w, s, e, rest)
  {
    forall p | p in w.local
      ensures BackedAt(w.hash, DeletePath(w, s, Watching, e.path).server, w.local, p) <==>
              BackedAt(w.hash, s.server, w.local, p)
      ensures !Coming(rest, p) ==> !Coming([e] + rest, p)
    {
      DeleteBacks(root, w, s, e.path, p);
      ComingOneMore(e, rest, p);
    }
  }

  /** The state before the request. */
  lemma LateBased(root: Path, w: World, stale: iset<Path>, s: State, rest: seq<Event>)
    requires Ready(root, w, stale, s, rest)
    ensures var r := Waited(w, s, Late);
      && Based(root, w, stale, r, rest) && r.server == s.server && r.deleted == s.deleted
      && (if s.connection == 0 then 0 <= r.connection <= 1 else r == s && Current(w, s, rest))
  {
    WaitedKeeps(w, s, Late);
  }

  lemma PostSound(root: Path, w: World, stale: iset<Path>, s: State, e: Event, rest: seq<Event>)
    requires GoodLocal(root, w.local) && Ready(root, w, stale, s, [e] + rest)
    requires e.status != Erased && e.path in w.local
    ensures Sound(root, w, stale, React(w, s, e), rest) <==> HarmlessFrom(w, stale, s, e, rest)
  {
    var s1 := Waited(w, s, Late);
    LateBased(root, w, stale, s, [e] + rest);
    PostBased(root, w, stale, s1, e, rest);
    if w.up(|s1.log|) {
      PostCurrent(root, w, s1, e, rest);
    }
  }

  lemma DeleteSound(root: Path, w: World, stale: iset<Path>, s: State, e: Event, rest: seq<Event>)
    requires GoodLocal(root, w.local) && Ready(root, w, stale, s, [e] + rest)
    requires e.status == Erased && e.path !in w.local && root < e.path && e !in rest
    ensures Sound(root, w, stale, React(w, s, e), rest) <==> HarmlessFrom(w, stale, s, e, rest)
  {
    var s1 := Waited(w, s, Late);
    assert e == Event(e.path, Erased);
    LateBased(root, w, stale, s, [e] + rest);
    DeleteBased(root, w, stale, s1, e.path, rest);
    WaitedKeeps(w, DeletePath(w, s1, Watching, e.path), Unqueued(e.path));
    DeleteCurrent(root, w, s1, e, rest);
  }

  /** The event, from the state before its counter test on. */
  ghost predicate Harmless(root: Path, w: World, stale: iset<Path>, s: State, e: Event, rest: seq<Event>)
    requires VisitsLocal(w)
  {
    && TestHarmless(root, w, stale, Waited(w, s, Early), [e] + rest)
    && HarmlessFrom(w, stale, Tested(w, s), e, rest)
  }

  /** One event of a scan, with outages and probes anywhere in it: the invariant holds after the
      test and after the request if and only if the checksync of the test left nothing undone and
      no probe succeeded in a window where that matters. */
  lemma EventExactly(root: Path, w: World, stale: iset<Path>, s: State, e: Event, rest: seq<Event>)
    requires VisitsLocal(w) && GoodLocal(root, w.local) && EventFits(root, w, e) && e !in rest
    requires Sound(root, w, stale, s, [e] + rest) && Counts(s)
    ensures Ready(root, w, stale, Tested(w, s), [e] + rest) && Sound(root, w, stale, OnEvent(w, s, e), rest)
            <==> Harmless(root, w, stale, s, e, rest)
  {
    var s0 := Waited(w, s, Early);
    WaitedSound(root, w, stale, s, [e] + rest, Early);
    WaitedCounts(w, s, Early);
    TestExactly(root, w, stale, s0, [e] + rest);
    if Ready(root, w, stale, Tested(w, s), [e] + rest) {
      if e.status == Erased {
        DeleteSound(root, w, stale, Tested(w, s), e, rest);
      } else {
        PostSound(root, w, stale, Tested(w, s), e, rest);
      }
    }
  }

  lemma WaitedCounts(w: World, s: State, moment: Moment)
    requires Counts(s)
    ensures Counts(Waited(w, s, moment))
  {
    CountsKept();
    WaitedStays(CountedStates(), AllCalls(), w, s, moment);
    assert Waited(w, s, moment) in CountedStates();
  }

  // ----- no probe in a window -----

  /** A probe that brings the counter up is the last entry of the history. */
  lemma {:induction false} ProbesWake(s: State, moment: Moment, oks: seq<bool>)
    requires s.connection == 0 && Probes(s, moment, oks).connection != 0
    ensures var log := Probes(s, moment, oks).log;
            |log| > |s.log| && log[|log| - 1] == Attempt(Probing(moment), Hello("reconnect"), true)
    decreases |oks|
  {
    var k := |oks| - 1;
    ProbesKeep(s, moment, oks[..k]);
    if Probes(s, moment, oks[..k]).connection != 0 {
      ProbesWake(s, moment, oks[..k]);
    }
  }

  lemma NotLateInPrefix(a: seq<Entry>, b: seq<Entry>, n: nat)
    requires a <= b && NoLateProbe(b, n)
    ensures NoLateProbe(a, n)
  {
    assert forall i :: 0 <= i < |a| ==> a[i] == b[i];
  }

  lemma WakeShows(w: World, s: State, moment: Moment, n: nat)
    requires s.connection == 0 && n <= |s.log| && (moment.Late? || moment.Unqueued?)
    ensures Waited(w, s, moment).connection != 0 ==> !NoLateProbe(Waited(w, s, moment).log, n)
  {
    var r := Waited(w, s, moment);
    WaitedKeeps(w, s, moment);
    if r.connection != 0 {
      ProbesWake(s, moment, w.timer(|s.log|, moment));
      assert LateProbe(r.log[|r.log| - 1]) && r.log[|r.log| - 1].ok;
    }
  }

  lemma NoWindowHarms(w: World, stale: iset<Path>, s: State, e: Event, rest: seq<Event>, n: nat)
    requires NoLateProbe(React(w, s, e).log, n) && n <= |s.log| && (e.status != Erased ==> e.path in w.local)
    ensures HarmlessFrom(w, stale, s, e, rest)
  {
    var s1 := Waited(w, s, Late);
    WaitedKeeps(w, s, Late);
    if e.status == Erased {
      var s2 := DeletePath(w, s1, Watching, e.path);
      WaitedKeeps(w, s2, Unqueued(e.path));
      NotLateInPrefix(s1.log, React(w, s, e).log, n);
      NotLateInPrefix(Waited(w, s2, Unqueued(e.path)).log, React(w, s, e).log, n);
      if s2.connection == 0 {
        WakeShows(w, s2, Unqueued(e.path), n);
      }
    } else {
      NotLateInPrefix(s1.log, React(w, s, e).log, n);
    }
    if s.connection == 0 {
      WakeShows(w, s, Late, n);
    }
  }
}
