/** A second checksync over an unchanged tree. */
module SyncAgain {
  import opened Text
  import opened FileTree
  import opened Sync
  import opened SyncSteps
  import opened SyncHistory
  import opened SyncMirror

  predicate NoPostFrom(log: seq<Entry>, n: nat) {
    forall i :: n <= i < |log| && log[i].Attempt? ==> !log[i].call.Put?
  }

  lemma CheckPathQuiet(w: World, s: State, p: Path)
    requires p in w.local && s.connection > 0 && NoSyncOutage(CheckPath(w, s, p).log, |s.log|)
    ensures var r := CheckPath(w, s, p);
            && (NoPostFrom(r.log, |s.log|) <==> Accepts(w, s.server, p))
            && (Accepts(w, s.server, p) ==> r.server == s.server)
            && r.connection > 0
  {
    var r, s1 := CheckPath(w, s, p), Compared(w, s, p);
    var put := Put(p, LocalContent(w, p));
    CheckPathAnswered(w, s, p);
    CheckPathPosts(w, s, p);
    SyncSendsNow(w, s, Get(p, LocalContent(w, p)));
    SyncSends(w, s1, put);
    assert s1.log <= r.log && r.log[|s.log|] == s1.log[|s.log|];
    if !Accepts(w, s.server, p) {
      SyncSendsNow(w, s1, put);
      assert r.log[|s1.log|] == Attempt(Syncing, put, w.up(|s1.log|));
    }
  }

  lemma NoPostSplit(a: seq<Entry>, b: seq<Entry>, n: nat)
    requires a <= b && n <= |a|
    ensures NoPostFrom(b, n) <==> NoPostFrom(a, n) && NoPostFrom(b, |a|)
  {
    assert forall i :: 0 <= i < |a| ==> a[i] == b[i];
  }

  /** Comparisons without outage post nothing exactly when every path is accepted as it is. */
  lemma {:induction false} CheckAllQuiet(w: World, s: State, ps: seq<Path>)
    requires Listed(ps, w.local) && s.connection > 0 && NoSyncOutage(CheckAll(w, s, ps).log, |s.log|)
    ensures var r := CheckAll(w, s, ps);
            && (NoPostFrom(r.log, |s.log|) <==> AllAccepted(w, s.server, ps))
            && (NoPostFrom(r.log, |s.log|) ==> r.server == s.server)
            && r.connection > 0
    decreases |ps|
  {
    if ps != [] {
      var k := |ps| - 1;
      var s1 := CheckAll(w, s, ps[..k]);
      CheckAllLog(w, s, ps[..k]);
      CheckPathPosts(w, s1, ps[k]);
      PrefixHasNoOutage(s1.log, CheckPath(w, s1, ps[k]).log, |s.log|);
      CheckAllQuiet(w, s, ps[..k]);
      CheckPathQuiet(w, s1, ps[k]);
      NoPostSplit(s1.log, CheckPath(w, s1, ps[k]).log, |s.log|);
      AllAcceptedButLast(w, s.server, ps);
    }
  }

  lemma AllAcceptedButLast(w: World, t: Tree, ps: seq<Path>)
    requires Listed(ps, w.local) && ps != []
    ensures AllAccepted(w, t, ps) <==> AllAccepted(w, t, ps[..|ps| - 1]) && Accepts(w, t, ps[|ps| - 1])
  {
    assert forall i :: 0 <= i < |ps| - 1 ==> ps[..|ps| - 1][i] == ps[i];
  }

  predicate AllAccepted(w: World, t: Tree, ps: seq<Path>)
    requires Listed(ps, w.local)
  {
    forall i :: 0 <= i < |ps| ==> Accepts(w, t, ps[i])
  }

  lemma EveryVisited(w: World, ps: seq<Path>, t: Tree)
    requires Listed(ps, w.local) && forall p :: p in w.local ==> p in ps
    ensures AllAccepted(w, t, ps) <==> (forall p :: p in w.local ==> Accepts(w, t, p))
  {
  }

  /** A checksync without a queue and without outage posts nothing exactly when the server
      accepts every local path. */
  lemma QuietSync(w: World, s: State)
    requires VisitsLocal(w) && s.deleted == [] && s.connection > 0 && NoSyncOutage(CheckSync(w, s).log, |s.log|)
    ensures NoPostFrom(CheckSync(w, s).log, |s.log|) <==> forall p :: p in w.local ==> Accepts(w, s.server, p)
  {
    var s0, ps := Marked(s), w.visit(|s.log|);
    assert Drained(w, s) == s0;
    CheckAllQuiet(w, s0, ps);
    CheckAllLog(w, s0, ps);
    NoPostSplit(s0.log, CheckAll(w, s0, ps).log, |s.log|);
    EveryVisited(w, ps, s.server);
  }

  /** What is backed up is accepted if its content holds no sentinel; under an injective digest
      only then. */
  lemma AcceptedAgain(w: World, t: Tree, p: Path)
    requires p in w.local && BackedAt(w.hash, t, w.local, p)
    ensures SentinelFree(w.local[p].node) ==> Accepts(w, t, p)
    ensures Injective(w.hash) && Clean(t) ==> (Accepts(w, t, p) <==> SentinelFree(w.local[p].node))
  {
    if w.local[p].node.File? {
      FramedSpec(w.local[p].node.content);
    }
  }

  lemma AllAcceptedAgain(w: World, t: Tree)
    requires forall p :: p in w.local ==> BackedAt(w.hash, t, w.local, p)
    ensures NoSentinels(w.local) ==> forall p :: p in w.local ==> Accepts(w, t, p)
    ensures Injective(w.hash) && Clean(t) ==>
              (NoSentinels(w.local) <==> forall p :: p in w.local ==> Accepts(w, t, p))
  {
    forall p | p in w.local
      ensures SentinelFree(w.local[p].node) ==> Accepts(w, t, p)
      ensures Injective(w.hash) && Clean(t) ==> (Accepts(w, t, p) <==> SentinelFree(w.local[p].node))
    {
      AcceptedAgain(w, t, p);
    }
  }

  /** The same tree compared again, right after a checksync without outage: nothing is posted if
      no watched file holds a sentinel; and under an injective digest, from a server that stores
      none, only then. */
  lemma SecondPass(root: Path, w: World, s: State, again: World)
    requires VisitsLocal(w) && GoodLocal(root, w.local) && GoodServer(root, s.server) && s.connection > 0
    requires NoSyncOutage(CheckSync(w, s).log, |s.log|)
    requires VisitsLocal(again) && again.local == w.local && again.hash == w.hash
    requires NoSyncOutage(CheckSync(again, CheckSync(w, s)).log, |CheckSync(w, s).log|)
    ensures var r := CheckSync(w, s);
            var quiet := NoPostFrom(CheckSync(again, r).log, |r.log|);
            && (NoSentinels(w.local) ==> quiet)
            && (Injective(w.hash) && Clean(s.server) ==> (quiet <==> NoSentinels(w.local)))
  {
    var r := CheckSync(w, s);
    CheckSyncOnline(root, w, s);
    QuietSync(again, r);
    AllAcceptedAgain(again, r.server);
    if Clean(s.server) {
      CheckSyncClean(w, s);
    }
  }

  lemma CheckSyncClean(w: World, s: State)
    requires VisitsLocal(w) && Clean(s.server)
    ensures Clean(CheckSync(w, s).server)
  {
    CleanKept();
    CheckSyncStays(CleanStates(), AllCalls(), w, s);
  }
}
