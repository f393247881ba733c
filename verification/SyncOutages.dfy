/** Checksync under outage: exactly what it leaves behind, whatever connects. */
module SyncOutages {
  import opened FileTree
  import opened Sync
  import opened SyncSteps
  import opened SyncHistory
  import opened SyncCounter

  // ----- what the comparisons leave, whatever connects -----

  /** A POST of `q` or of something below it is delivered by the comparisons of `ps`. */
  predicate PostedFor(w: World, s: State, ps: seq<Path>, q: Path)
    requires Listed(ps, w.local)
  {
    exists k :: 0 <= k < |ps| && q <= ps[k] && Posted(w, CheckAll(w, s, ps[..k]), ps[k])
  }

  lemma PostedLast(w: World, s: State, ps: seq<Path>, q: Path)
    requires Listed(ps, w.local) && ps != []
    ensures var k := |ps| - 1;
            PostedFor(w, s, ps, q) <==>
            PostedFor(w, s, ps[..k], q) || (q <= ps[k] && Posted(w, CheckAll(w, s, ps[..k]), ps[k]))
  {
    var k := |ps| - 1;
    assert forall i :: 0 <= i < k ==> ps[..k][i] == ps[i] && ps[..k][..i] == ps[..i];
  }

  lemma {:induction false} CheckAllGood(root: Path, w: World, s: State, ps: seq<Path>)
    requires GoodLocal(root, w.local) && GoodServer(root, s.server) && Listed(ps, w.local)
    ensures GoodServer(root, CheckAll(w, s, ps).server) && CheckAll(w, s, ps).deleted == s.deleted
    decreases |ps|
  {
    if ps != [] {
      CheckAllGood(root, w, s, ps[..|ps| - 1]);
      CheckPathAny(root, w, CheckAll(w, s, ps[..|ps| - 1]), ps[|ps| - 1]);
    }
  }

  /** Comparisons take nothing away, and below the root they add watched paths only. */
  lemma {:induction false} CheckAllAdds(root: Path, w: World, s: State, ps: seq<Path>, q: Path)
    requires GoodLocal(root, w.local) && GoodServer(root, s.server) && Listed(ps, w.local)
    ensures q in s.server ==> q in CheckAll(w, s, ps).server
    ensures q in CheckAll(w, s, ps).server && root < q ==> q in s.server || q in w.local
    decreases |ps|
  {
    if ps != [] {
      var k := |ps| - 1;
      CheckAllAdds(root, w, s, ps[..k], q);
      CheckAllGood(root, w, s, ps[..k]);
      CheckPathAny(root, w, CheckAll(w, s, ps[..k]), ps[k]);
      if root < q {
        LocalAbove(root, w.local, ps[k], q);
      }
    }
  }

  /** What the comparisons back up, exactly: what was backed up, and what lies at or above a
      delivered POST. */
  lemma {:induction false} CheckAllBacks(root: Path, w: World, s: State, ps: seq<Path>, q: Path)
    requires GoodLocal(root, w.local) && GoodServer(root, s.server) && Listed(ps, w.local) && q in w.local
    ensures BackedAt(w.hash, CheckAll(w, s, ps).server, w.local, q) <==>
            BackedAt(w.hash, s.server, w.local, q) || PostedFor(w, s, ps, q)
    decreases |ps|
  {
    if ps != [] {
      var k := |ps| - 1;
      CheckAllBacks(root, w, s, ps[..k], q);
      CheckAllGood(root, w, s, ps[..k]);
      CheckPathAny(root, w, CheckAll(w, s, ps[..k]), ps[k]);
      PostedLast(w, s, ps, q);
    }
  }

  // ----- what a checksync leaves, whatever connects -----

  lemma DrainedBacks(root: Path, w: World, s: State, q: Path)
    requires GoodServer(root, s.server) && q in w.local
    ensures GoodServer(root, Drained(w, s).server)
    ensures BackedAt(w.hash, Drained(w, s).server, w.local, q) <==>
            BackedAt(w.hash, s.server, w.local, q) && !Delivered(w, s, q)
  {
    DrainedExact(root, w, s);
  }

  /** A checksync always empties the queue; a path that is not local stays on the server
      exactly when neither its deletion nor one above it was queued and delivered. */
  lemma ForgottenExactly(root: Path, w: World, s: State, x: Path)
    requires VisitsLocal(w) && GoodLocal(root, w.local) && GoodServer(root, s.server)
    requires root < x && x !in w.local
    ensures CheckSync(w, s).deleted == []
    ensures x in CheckSync(w, s).server <==> x in s.server && !Delivered(w, s, x)
  {
    DrainedExact(root, w, s);
    CheckAllGood(root, w, Drained(w, s), w.visit(|s.log|));
    CheckAllAdds(root, w, Drained(w, s), w.visit(|s.log|), x);
  }

  /** A local path is backed up after a checksync exactly when it was and no deletion at or above
      it was delivered, or a POST at or below it is delivered. */
  lemma BackedExactly(root: Path, w: World, s: State, q: Path)
    requires VisitsLocal(w) && GoodLocal(root, w.local) && GoodServer(root, s.server) && q in w.local
    ensures BackedAt(w.hash, CheckSync(w, s).server, w.local, q) <==> Repaired(w, s, q)
  {
    var s1, ps := Drained(w, s), w.visit(|s.log|);
    DrainedBacks(root, w, s, q);
    CheckAllBacks(root, w, s1, ps, q);
    assert CheckSync(w, s) == CheckAll(w, s1, ps);
  }

  ghost predicate Repaired(w: World, s: State, q: Path)
    requires VisitsLocal(w) && q in w.local
  {
    || (BackedAt(w.hash, s.server, w.local, q) && !Delivered(w, s, q))
    || PostedFor(w, Drained(w, s), w.visit(|s.log|), q)
  }

  /** What is on the server and neither local nor in `stale` meets a delivered deletion of it or
      of something above it. */
  ghost predicate Swept(root: Path, w: World, stale: iset<Path>, s: State) {
    forall x :: x in s.server && root < x && x !in w.local && x !in stale ==>
      Delivered(w, s, x)
  }

  lemma SweptExactly(root: Path, w: World, stale: iset<Path>, s: State)
    requires VisitsLocal(w) && GoodLocal(root, w.local) && GoodServer(root, s.server)
    ensures CheckSync(w, s).deleted == [] && GoodServer(root, CheckSync(w, s).server)
    ensures (forall x :: x in CheckSync(w, s).server && root < x ==> x in w.local || x in stale)
            <==> Swept(root, w, stale, s)
  {
    DrainedExact(root, w, s);
    CheckAllGood(root, w, Drained(w, s), w.visit(|s.log|));
    forall x | root < x && x !in w.local
      ensures x in CheckSync(w, s).server <==> x in s.server && !Delivered(w, s, x)
    {
      ForgottenExactly(root, w, s, x);
    }
  }

  /** With outages anywhere in it, a checksync ends with a mirror if and only if every stale path
      was swept and every local path repaired: posted, or backed up before and not deleted. */
  lemma MirrorsExactly(root: Path, w: World, stale: iset<Path>, s: State)
    requires VisitsLocal(w) && GoodLocal(root, w.local) && GoodServer(root, s.server)
    ensures Mirrors(root, w.hash, stale, w.local, CheckSync(w, s)) <==>
            Swept(root, w, stale, s) && forall q :: q in w.local ==> Repaired(w, s, q)
  {
    SweptExactly(root, w, stale, s);
    forall q | q in w.local
      ensures BackedAt(w.hash, CheckSync(w, s).server, w.local, q) <==> Repaired(w, s, q)
    {
      BackedExactly(root, w, s, q);
    }
  }

  lemma CheckSyncCounts(w: World, s: State)
    requires VisitsLocal(w) && Counts(s)
    ensures Counts(CheckSync(w, s))
  {
    CountsKept();
    AllCallsHold(w, []);
    CheckSyncStays(CountedStates(), AllCalls(), w, s);
    assert CheckSync(w, s) in CountedStates();
  }

  /** And the invariant of the boundaries survives it if and only if every stale path was swept
      and, when the last two attempts of the history connected, every local path is repaired. */
  lemma BoundaryExactly(root: Path, w: World, stale: iset<Path>, s: State)
    requires VisitsLocal(w) && GoodLocal(root, w.local) && GoodServer(root, s.server) && Counts(s)
    ensures Boundary(root, w.hash, stale, w.local, CheckSync(w, s)) <==>
            && Swept(root, w, stale, s)
            && (ConnectedTwice(CheckSync(w, s).log) ==> forall q :: q in w.local ==> Repaired(w, s, q))
  {
    SweptExactly(root, w, stale, s);
    MirrorsExactly(root, w, stale, s);
    CheckSyncCounts(w, s);
    CountIsZero(CheckSync(w, s).log);
  }

  /** Nothing is on the server below the root that is neither known nor queued. */
  predicate Covered(root: Path, known: set<Path>, s: State) {
    forall q :: q in s.server && root < q ==> q in known || q in s.deleted
  }

  /** With outages anywhere, a checksync keeps the cover exactly when the deletion of every
      queued path that still matters, or one above it, is delivered. */
  lemma CoverSurvives(root: Path, w: World, s: State, known: set<Path>)
    requires VisitsLocal(w) && GoodLocal(root, w.local) && GoodServer(root, s.server)
    requires w.local.Keys <= known && Covered(root, known, s)
    requires forall x :: x in s.deleted ==> root < x
    ensures Covered(root, known, CheckSync(w, s)) <==>
            forall x :: x in s.deleted && x in s.server && x !in known ==>
              Delivered(w, s, x)
  {
    var r := CheckSync(w, s);
    SweptExactly(root, w, iset{}, s);
    forall x | root < x && x !in known
      ensures x in r.server <==> x in s.server && !Delivered(w, s, x)
    {
      ForgottenExactly(root, w, s, x);
    }
  }
}
