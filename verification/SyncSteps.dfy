/** What one request, one drain of the queue and one checksync do to the server's tree. */
module SyncSteps {
  import opened Text
  import opened FileTree
  import opened Store
  import opened Sync

  // ----- the watched tree -----

  /** Below the root, what lies above a watched path is a watched directory. */
  lemma {:induction false} LocalPrefix(root: Path, local: Local, p: Path, q: Path)
    requires GoodLocal(root, local) && p in local && root < q && q <= p
    ensures q in local && (q != p ==> local[q].node.Dir?)
    decreases |p|
  {
    if |q| < |p| {
      assert q == p[..|q|] == Parent(p)[..|q|];
      assert Parent(p) in local;
      LocalPrefix(root, local, Parent(p), q);
    } else {
      assert q == p;
    }
  }

  lemma LocalAbove(root: Path, local: Local, p: Path, q: Path)
    requires GoodLocal(root, local) && p in local && root < q
    ensures q <= p ==> q in local
  {
    if q <= p {
      LocalPrefix(root, local, p, q);
    }
  }

  /** What lies above a path below the root is above the root or below it. */
  lemma RootOrBelow(root: Path, p: Path, q: Path)
    requires root < p && q <= p
    ensures q <= root || root < q
  {
    if |q| <= |root| {
      assert root == p[..|root|] && q == p[..|q|] == root[..|q|];
    } else {
      assert root == p[..|root|] == q[..|root|];
    }
  }

  /** Below the root, and no name on the way to the last one has an extension. */
  ghost predicate PathFits(root: Path, p: Path) {
    root < p && forall q :: root < q <= p && q != p ==> NameExtension(Last(q)) == ""
  }

  lemma LocalFits(root: Path, local: Local, p: Path)
    requires GoodLocal(root, local) && p in local
    ensures PathFits(root, p)
  {
    forall q | root < q <= p && q != p
      ensures NameExtension(Last(q)) == ""
    {
      LocalPrefix(root, local, p, q);
    }
  }

  /** On a good server no file is in the way to a path that fits. */
  lemma NothingBlocks(root: Path, t: Tree, p: Path, dir: Path)
    requires GoodServer(root, t) && PathFits(root, p) && dir <= p
    requires dir == p ==> NameExtension(Last(p)) == ""
    ensures !Blocked(t, dir)
  {
    forall k | 0 <= k <= |dir| && dir[..k] in t
      ensures t[dir[..k]].Dir?
    {
      assert dir[..k] <= p;
      RootOrBelow(root, p, dir[..k]);
    }
  }

  // ----- one request -----

  /** The node a POST of a watched path leaves behind. */
  function Stored(n: Node): Node {
    match n
    case Dir => Dir
    case File(content) => File(Framed(content))
  }

  /** The node a POST leaves behind: the name alone tells a file from a directory. */
  function MadeNode(p: Path, content: string): Node
    requires p != []
  {
    if NameExtension(Last(p)) != "" then File(content) else Dir
  }

  /** A good tree `r` that holds `n` at `p`, and else what `t` holds and new directories above. */
  predicate Uploaded(root: Path, t: Tree, r: Tree, p: Path, n: Node) {
    && GoodServer(root, r) && p in r && r[p] == n
    && (forall q :: q in t && q != p ==> q in r && r[q] == t[q])
    && (forall q :: q in r ==> q in t || q <= p)
  }

  /** A file on a good server has nothing below it. */
  lemma FileIsLeaf(root: Path, t: Tree, p: Path, q: Path)
    requires GoodServer(root, t) && q in t && root < p && NameExtension(Last(p)) != ""
    ensures p <= q ==> q == p
  {
    if |q| > |p| {
      assert p <= q ==> q[..|p|] == p;
      ClosedPrefix(t, q, |p|);
    } else {
      assert p <= q ==> q == p;
    }
  }

  /** On a good server a stored file replaces a file or nothing. */
  lemma StoreLeaf(root: Path, t: Tree, p: Path, content: string)
    requires GoodServer(root, t) && root < p && NameExtension(Last(p)) != "" && !Blocked(t, Parent(p))
    ensures StoreFile(t, p, Parent(p), content).outcome == Reply(Status.Created)
    ensures var r := StoreFile(t, p, Parent(p), content).tree;
      && Closed(r) && (forall q :: q in r <==> q in t || q <= p)
      && r[p] == File(content)
      && (forall q :: q in r && q != p ==> r[q] == if q in t then t[q] else Dir)
  {
    StoreFileEffect(t, p, content);
    StoreFileKeepsClosed(t, p, Parent(p), content);
    forall q | q in t && q != p
      ensures !(p <= q)
    {
      FileIsLeaf(root, t, p, q);
    }
  }

  /** A tree that differs from a good one in `p` and in new directories above it is good. */
  lemma MadeIsGood(root: Path, t: Tree, r: Tree, p: Path)
    requires GoodServer(root, t) && PathFits(root, p)
    requires Closed(r) && forall q :: q in r ==> q in t || q <= p
    requires p in r && (r[p].File? <==> NameExtension(Last(p)) != "")
    requires forall q :: q in r && q != p ==> r[q] == if q in t then t[q] else Dir
    ensures GoodServer(root, r)
  {
    forall q | q in r && q <= root
      ensures r[q].Dir?
    {
      assert q != p;
    }
  }

  lemma UploadFile(root: Path, t: Tree, p: Path, content: string)
    requires GoodServer(root, t) && PathFits(root, p) && NameExtension(Last(p)) != ""
    ensures Uploaded(root, t, Upload(t, p, content).tree, p, File(content))
    ensures Upload(t, p, content).outcome == Reply(Status.Created)
  {
    NothingBlocks(root, t, p, Parent(p));
    StoreLeaf(root, t, p, content);
    MadeIsGood(root, t, StoreFile(t, p, Parent(p), content).tree, p);
  }

  lemma UploadDirectory(root: Path, t: Tree, p: Path, content: string)
    requires GoodServer(root, t) && PathFits(root, p) && NameExtension(Last(p)) == ""
    ensures Uploaded(root, t, Upload(t, p, content).tree, p, Dir)
    ensures Upload(t, p, content).outcome == Reply(Status.Created)
  {
    NothingBlocks(root, t, p, p);
    assert p[..|p|] == p;
    AddDirsKeepsClosed(t, p);
    MadeIsGood(root, t, AddDirs(t, p), p);
  }

  /** On a good server a POST of a path that fits is always answered "created". */
  lemma UploadFits(root: Path, t: Tree, p: Path, content: string)
    requires GoodServer(root, t) && PathFits(root, p)
    ensures Uploaded(root, t, Upload(t, p, content).tree, p, MadeNode(p, content))
    ensures Upload(t, p, content).outcome == Reply(Status.Created)
  {
    if NameExtension(Last(p)) != "" {
      UploadFile(root, t, p, content);
    } else {
      UploadDirectory(root, t, p, content);
    }
  }

  lemma UploadLocal(root: Path, local: Local, t: Tree, p: Path)
    requires GoodLocal(root, local) && GoodServer(root, t) && p in local
    ensures p != []
    ensures Uploaded(root, t, Upload(t, p, Framed(ContentOf(local[p].node))).tree, p, Stored(local[p].node))
  {
    LocalFits(root, local, p);
    UploadFits(root, t, p, Framed(ContentOf(local[p].node)));
  }

  /** What a POST backs up, exactly: what was backed up before, the path itself, and what lies
      above it. */
  lemma UploadedBacks(root: Path, hash: string -> string, local: Local, t: Tree, r: Tree, p: Path, q: Path)
    requires GoodLocal(root, local) && GoodServer(root, t) && p in local && q in local
    requires Uploaded(root, t, r, p, Stored(local[p].node))
    ensures BackedAt(hash, r, local, q) <==> BackedAt(hash, t, local, q) || q <= p
  {
    if q != p && q <= p {
      AboveIsBacked(root, hash, local, r, p, q);
    }
  }

  lemma AboveIsBacked(root: Path, hash: string -> string, local: Local, r: Tree, p: Path, q: Path)
    requires GoodLocal(root, local) && Closed(r) && p in local && p in r && q in local && q != p && q <= p
    ensures BackedAt(hash, r, local, q)
  {
    assert q == p[..|q|];
    ClosedPrefix(r, p, |q|);
    LocalPrefix(root, local, p, q);
  }

  /** A POST is blocked by a file in the way and changes nothing, or leaves the named node. */
  lemma UploadedKind(t: Tree, p: Path, content: string)
    requires Closed(t) && p != []
    ensures var r := Upload(t, p, content);
            if r.outcome == Reply(Status.Created) then p in r.tree && r.tree[p] == MadeNode(p, content)
            else r.tree == t && Blocked(t, if NameExtension(Last(p)) != "" then Parent(p) else p)
  {
    StoreFileEffect(t, p, content);
    if p in t && t[p].File? {
      assert p[..|p|] == p;
      assert Blocked(t, p);
    }
  }

  /** The naming rule is what uploads rest on: an answered POST of any node at any path leaves
      the path backed up if and only if the node's kind is the one its name tells. */
  lemma NameDecidesKind(hash: string -> string, local: Local, t: Tree, p: Path)
    requires Closed(t) && p in local && p != []
    ensures var r := Upload(t, p, Framed(ContentOf(local[p].node)));
            if r.outcome == Reply(Status.Created)
            then BackedAt(hash, r.tree, local, p) <==> (local[p].node.File? <==> NameExtension(Last(p)) != "")
            else r.tree == t
  {
    UploadedKind(t, p, Framed(ContentOf(local[p].node)));
  }

  lemma DeleteGood(root: Path, t: Tree, p: Path)
    requires GoodServer(root, t)
    ensures GoodServer(root, Delete(t, p).tree)
    ensures forall q :: q in Delete(t, p).tree <==> q in t && !(p <= q)
    ensures forall q :: q in Delete(t, p).tree ==> Delete(t, p).tree[q] == t[q]
  {
    DeleteKeeps(t, p);
    NothingBelow(t, p);
  }

  /** An accepted GET means the path is backed up; kinds agree because names decide them. */
  lemma AcceptedIsBacked(root: Path, w: World, t: Tree, p: Path)
    requires GoodLocal(root, w.local) && GoodServer(root, t) && p in w.local && Accepts(w, t, p)
    ensures BackedAt(w.hash, t, w.local, p)
  {
  }

  // ----- the reconnect timer -----

  /** Probes touch the counter and the history only, and that only while the counter is zero. */
  lemma {:induction false} ProbesKeep(s: State, moment: Moment, oks: seq<bool>)
    ensures var r := Probes(s, moment, oks);
      && r.server == s.server && r.deleted == s.deleted && s.log <= r.log
      && (if s.connection == 0 then 0 <= r.connection <= 1 else r == s)
    decreases |oks|
  {
    if oks != [] {
      ProbesKeep(s, moment, oks[..|oks| - 1]);
    }
  }

  lemma WaitedKeeps(w: World, s: State, moment: Moment)
    ensures var r := Waited(w, s, moment);
      && r.server == s.server && r.deleted == s.deleted && s.log <= r.log
      && (if s.connection == 0 then 0 <= r.connection <= 1 else r == s)
  {
    ProbesKeep(s, moment, w.timer(|s.log|, moment));
  }

  // ----- one request of a checksync, whatever connects -----

  lemma SyncSends(w: World, s: State, call: Call)
    ensures var r := SyncSend(w, s, call);
      && r.server == (if Connects(w, s) then Effect(s.server, call) else s.server)
      && r.deleted == s.deleted && s.log < r.log
  {
    WaitedKeeps(w, s, Within);
  }

  /** While connected the timer does nothing. */
  lemma SyncSendsNow(w: World, s: State, call: Call)
    requires s.connection > 0
    ensures Connects(w, s) <==> w.up(|s.log|)
    ensures var r := SyncSend(w, s, call);
      && r.log == s.log + [Attempt(Syncing, call, w.up(|s.log|))]
      && r.connection == if w.up(|s.log|) then s.connection + 1 else 0
  {
    WaitedKeeps(w, s, Within);
  }

  /** The comparison of `p` leads to a POST that is delivered. */
  predicate Posted(w: World, s: State, p: Path)
    requires p in w.local
  {
    Stale(w, s, p) && Connects(w, Compared(w, s, p))
  }

  lemma ComparedReads(w: World, s: State, p: Path)
    requires p in w.local
    ensures var r := Compared(w, s, p); r.server == s.server && r.deleted == s.deleted && s.log < r.log
  {
    SyncSends(w, s, Get(p, LocalContent(w, p)));
  }

  /** A comparison is a delivered POST or leaves the server alone. */
  lemma CheckPathPosts(w: World, s: State, p: Path)
    requires p in w.local
    ensures var r := CheckPath(w, s, p);
      && r.server == (if Posted(w, s, p) then Effect(s.server, Put(p, LocalContent(w, p))) else s.server)
      && r.deleted == s.deleted && s.log < r.log
  {
    ComparedReads(w, s, p);
    if Stale(w, s, p) {
      SyncSends(w, Compared(w, s, p), Put(p, LocalContent(w, p)));
    }
  }

  /** What a comparison keeps, adds and backs up, whatever connects. */
  predicate CheckedPath(root: Path, w: World, s: State, p: Path, r: State)
    requires p in w.local
  {
    && GoodServer(root, r.server) && r.deleted == s.deleted
    && (forall q :: q in s.server ==> q in r.server && (q != p ==> r.server[q] == s.server[q]))
    && (forall q :: q in r.server ==> q in s.server || q <= p)
    && (forall q :: q in w.local ==>
          (BackedAt(w.hash, r.server, w.local, q) <==>
           BackedAt(w.hash, s.server, w.local, q) || (q <= p && Posted(w, s, p))))
  }

  lemma CheckPathAny(root: Path, w: World, s: State, p: Path)
    requires GoodLocal(root, w.local) && GoodServer(root, s.server) && p in w.local
    ensures CheckedPath(root, w, s, p, CheckPath(w, s, p))
  {
    CheckPathPosts(w, s, p);
    if Posted(w, s, p) {
      UploadLocal(root, w.local, s.server, p);
      var t := Effect(s.server, Put(p, LocalContent(w, p)));
      forall q | q in w.local
        ensures BackedAt(w.hash, t, w.local, q) <==> BackedAt(w.hash, s.server, w.local, q) || q <= p
      {
        UploadedBacks(root, w.hash, w.local, s.server, t, p, q);
      }
    }
  }

  // ----- the history -----

  /** The history only grows. */
  lemma {:induction false} DrainLog(w: World, s: State, xs: seq<Path>)
    ensures s.log <= Drain(w, s, xs).log
    decreases |xs|
  {
    if xs != [] {
      DrainLog(w, s, xs[..|xs| - 1]);
      SyncSends(w, Drain(w, s, xs[..|xs| - 1]), Remove(xs[|xs| - 1]));
    }
  }

  lemma {:induction false} CheckAllLog(w: World, s: State, ps: seq<Path>)
    requires Listed(ps, w.local)
    ensures s.log <= CheckAll(w, s, ps).log
    decreases |ps|
  {
    if ps != [] {
      CheckAllLog(w, s, ps[..|ps| - 1]);
      CheckPathPosts(w, CheckAll(w, s, ps[..|ps| - 1]), ps[|ps| - 1]);
    }
  }

  lemma CheckSyncLog(w: World, s: State)
    requires VisitsLocal(w)
    ensures s.log + [SyncStart(s.deleted)] <= CheckSync(w, s).log
  {
    DrainLog(w, Marked(s), s.deleted);
    CheckAllLog(w, Drained(w, s), w.visit(|s.log|));
  }

  lemma PrefixHasNoOutage(a: seq<Entry>, b: seq<Entry>, n: nat)
    requires a <= b && NoSyncOutage(b, n)
    ensures NoSyncOutage(a, n)
  {
    assert forall i :: 0 <= i < |a| ==> a[i] == b[i];
  }

  // ----- the drain -----

  /** The drain of `xs` that starts from `s` delivers a deletion of `q` or of something above it. */
  predicate DeliveredFor(w: World, s: State, xs: seq<Path>, q: Path) {
    exists i :: 0 <= i < |xs| && Connects(w, Drain(w, s, xs[..i])) && xs[i] <= q
  }

  lemma DeliveredLast(w: World, s: State, xs: seq<Path>, q: Path)
    requires xs != []
    ensures var k := |xs| - 1;
            DeliveredFor(w, s, xs, q) <==>
            DeliveredFor(w, s, xs[..k], q) || (Connects(w, Drain(w, s, xs[..k])) && xs[k] <= q)
  {
    var k := |xs| - 1;
    assert forall i :: 0 <= i < k ==> xs[..k][i] == xs[i] && xs[..k][..i] == xs[..i];
  }

  /** Each queued deletion is attempted once, in order. */
  lemma {:induction false} DrainAttempts(w: World, s: State, xs: seq<Path>)
    ensures var r := Drain(w, s, xs);
            && r.deleted == s.deleted
            && (xs != [] ==>
                  var k := |xs| - 1;
                  var s1 := Drain(w, s, xs[..k]);
                  r.server == if Connects(w, s1) then Effect(s1.server, Remove(xs[k])) else s1.server)
    decreases |xs|
  {
    if xs != [] {
      DrainAttempts(w, s, xs[..|xs| - 1]);
      SyncSends(w, Drain(w, s, xs[..|xs| - 1]), Remove(xs[|xs| - 1]));
    }
  }

  lemma {:induction false} DrainGood(root: Path, w: World, s: State, xs: seq<Path>)
    requires GoodServer(root, s.server)
    ensures GoodServer(root, Drain(w, s, xs).server)
    decreases |xs|
  {
    if xs != [] {
      var k := |xs| - 1;
      DrainGood(root, w, s, xs[..k]);
      DrainAttempts(w, s, xs);
      DeleteGood(root, Drain(w, s, xs[..k]).server, xs[k]);
    }
  }

  /** Whatever is above a path of the tree is in the tree. */
  ghost predicate Rooted(t: Tree) { forall p: Path, q :: q in t && p <= q ==> p in t }

  lemma ClosedIsRooted(t: Tree)
    requires Closed(t)
    ensures Rooted(t)
  {
    forall p: Path, q | q in t && p <= q
      ensures p in t
    {
      if |p| < |q| {
        ClosedPrefix(t, q, |p|);
        assert q[..|p|] == p;
      } else {
        assert p == q;
      }
    }
  }

  lemma DeleteRooted(t: Tree, x: Path, deliver: bool)
    requires Rooted(t)
    ensures var r := if deliver then Effect(t, Remove(x)) else t;
            && Rooted(r) && (forall q :: q in r <==> q in t && !(deliver && x <= q))
            && (forall q :: q in r ==> r[q] == t[q])
  {
    var r := if deliver then Effect(t, Remove(x)) else t;
    forall p: Path, q | q in r && p <= q
      ensures p in r
    {
      if x <= p {
        assert q[..|p|][..|x|] == q[..|x|];
      }
    }
  }

  /** Exactly what lies at or below a delivered deletion is gone. */
  ghost predicate Removed(w: World, s: State, xs: seq<Path>, r: Tree) {
    && (forall q :: q in r <==> q in s.server && !DeliveredFor(w, s, xs, q))
    && (forall q :: q in r ==> r[q] == s.server[q])
  }

  lemma RemovedOneMore(w: World, s: State, xs: seq<Path>, t: Tree, r: Tree)
    requires xs != [] && Removed(w, s, xs[..|xs| - 1], t)
    requires var deliver := Connects(w, Drain(w, s, xs[..|xs| - 1]));
             forall q :: q in r <==> q in t && !(deliver && xs[|xs| - 1] <= q)
    requires forall q :: q in r ==> r[q] == t[q]
    ensures Removed(w, s, xs, r)
  {
    forall q
      ensures q in r <==> q in s.server && !DeliveredFor(w, s, xs, q)
    {
      DeliveredLast(w, s, xs, q);
    }
  }

  lemma {:induction false} DrainRemoves(w: World, s: State, xs: seq<Path>)
    requires Rooted(s.server)
    ensures Rooted(Drain(w, s, xs).server) && Removed(w, s, xs, Drain(w, s, xs).server)
    decreases |xs|
  {
    if xs != [] {
      var k := |xs| - 1;
      var s1 := Drain(w, s, xs[..k]);
      DrainAttempts(w, s, xs);
      DrainRemoves(w, s, xs[..k]);
      DeleteRooted(s1.server, xs[k], Connects(w, s1));
      RemovedOneMore(w, s, xs, s1.server, Drain(w, s, xs).server);
    }
  }

  /** Whatever connects and whatever fails: a drain removes exactly what lies at or below a
      path whose deletion was delivered, and keeps everything else. */
  lemma DrainExact(root: Path, w: World, s: State, xs: seq<Path>)
    requires GoodServer(root, s.server)
    ensures Drain(w, s, xs).deleted == s.deleted && GoodServer(root, Drain(w, s, xs).server)
    ensures Removed(w, s, xs, Drain(w, s, xs).server)
  {
    DrainAttempts(w, s, xs);
    DrainGood(root, w, s, xs);
    ClosedIsRooted(s.server);
    DrainRemoves(w, s, xs);
  }

  /** The checksync that starts from `s` delivers a queued deletion of `q` or of something above. */
  predicate Delivered(w: World, s: State, q: Path) { DeliveredFor(w, Marked(s), s.deleted, q) }

  /** The first loop of a checksync, whatever connects. */
  lemma DrainedExact(root: Path, w: World, s: State)
    requires GoodServer(root, s.server)
    ensures GoodServer(root, Drained(w, s).server) && Drained(w, s).deleted == []
    ensures forall q :: q in Drained(w, s).server <==> q in s.server && !Delivered(w, s, q)
    ensures forall q :: q in Drained(w, s).server ==> Drained(w, s).server[q] == s.server[q]
  {
    DrainExact(root, w, Marked(s), s.deleted);
  }

  /** Without a failed attempt a drain delivers every deletion, and the counter only rises. */
  lemma {:induction false} DrainOnline(w: World, s: State, xs: seq<Path>)
    requires NoSyncOutage(Drain(w, s, xs).log, |s.log|) && s.connection > 0
    ensures Drain(w, s, xs).connection == s.connection + |xs|
    ensures forall i :: 0 <= i < |xs| ==> Connects(w, Drain(w, s, xs[..i]))
    decreases |xs|
  {
    if xs != [] {
      var k := |xs| - 1;
      var s1 := Drain(w, s, xs[..k]);
      var r := Drain(w, s, xs);
      SyncSends(w, s1, Remove(xs[k]));
      PrefixHasNoOutage(s1.log, r.log, |s.log|);
      DrainOnline(w, s, xs[..k]);
      DrainLog(w, s, xs[..k]);
      SyncSendsNow(w, s1, Remove(xs[k]));
      assert r.log[|s1.log|] == Attempt(Syncing, Remove(xs[k]), w.up(|s1.log|));
      assert forall i :: 0 <= i < k ==> xs[..k][..i] == xs[..i];
    }
  }

  // ----- a checksync without outage -----

  /** Without outage a comparison is answered, and so is the POST it calls for. */
  lemma CheckPathAnswered(w: World, s: State, p: Path)
    requires p in w.local && s.connection > 0 && NoSyncOutage(CheckPath(w, s, p).log, |s.log|)
    ensures CheckPath(w, s, p).connection > s.connection
    ensures Accepts(w, s.server, p) || Posted(w, s, p)
  {
    var r, s1 := CheckPath(w, s, p), Compared(w, s, p);
    var put := Put(p, LocalContent(w, p));
    SyncSendsNow(w, s, Get(p, LocalContent(w, p)));
    SyncSends(w, s1, put);
    assert s1.log <= r.log && r.log[|s.log|] == s1.log[|s.log|];
    assert w.up(|s.log|);
    if Stale(w, s, p) {
      SyncSendsNow(w, s1, put);
      assert r.log[|s1.log|] == Attempt(Syncing, put, w.up(|s1.log|));
    }
  }

  lemma CheckPathOnline(root: Path, w: World, s: State, p: Path)
    requires GoodLocal(root, w.local) && GoodServer(root, s.server) && s.connection > 0
    requires p in w.local && NoSyncOutage(CheckPath(w, s, p).log, |s.log|)
    ensures var r := CheckPath(w, s, p);
            && r.connection > s.connection && CheckedPath(root, w, s, p, r)
            && BackedAt(w.hash, r.server, w.local, p)
  {
    CheckPathAnswered(w, s, p);
    CheckPathAny(root, w, s, p);
    if Accepts(w, s.server, p) {
      AcceptedIsBacked(root, w, s.server, p);
    }
  }

  /** After the comparisons: every visited path is backed up, nothing else is changed or lost,
      and what is new lies on the way to a watched path. */
  predicate AllChecked(root: Path, w: World, s: State, ps: seq<Path>, r: State) {
    && r.deleted == s.deleted && GoodServer(root, r.server)
    && r.connection >= s.connection + |ps|
    && (forall p :: p in ps && p in w.local ==> BackedAt(w.hash, r.server, w.local, p))
    && (forall q :: q in s.server ==> q in r.server && (q !in ps ==> r.server[q] == s.server[q]))
    && (forall q :: q in r.server && q !in s.server ==> exists p :: p in ps && q <= p)
  }

  lemma {:induction false} CheckAllOnline(root: Path, w: World, s: State, ps: seq<Path>)
    requires GoodLocal(root, w.local) && GoodServer(root, s.server) && s.connection > 0
    requires Listed(ps, w.local)
    requires NoSyncOutage(CheckAll(w, s, ps).log, |s.log|)
    ensures AllChecked(root, w, s, ps, CheckAll(w, s, ps))
    decreases |ps|
  {
    if ps != [] {
      var k := |ps| - 1;
      var s1 := CheckAll(w, s, ps[..k]);
      CheckPathPosts(w, s1, ps[k]);
      PrefixHasNoOutage(s1.log, CheckPath(w, s1, ps[k]).log, |s.log|);
      CheckAllLog(w, s, ps[..k]);
      CheckAllOnline(root, w, s, ps[..k]);
      CheckPathOnline(root, w, s1, ps[k]);
      CheckedOneMore(root, w, s, ps, s1, CheckPath(w, s1, ps[k]));
    }
  }

  lemma NewOnTheWay(front: seq<Path>, last: Path, ps: seq<Path>, q: Path)
    requires ps == front + [last] && ((exists p :: p in front && q <= p) || q <= last)
    ensures exists p :: p in ps && q <= p
  {
    if q <= last {
      assert last in ps;
    } else {
      var p :| p in front && q <= p;
      assert p in ps;
    }
  }

  lemma CheckedOneMore(root: Path, w: World, s: State, ps: seq<Path>, s1: State, r: State)
    requires ps != [] && ps[|ps| - 1] in w.local
    requires AllChecked(root, w, s, ps[..|ps| - 1], s1)
    requires CheckedPath(root, w, s1, ps[|ps| - 1], r) && r.connection > s1.connection
    requires BackedAt(w.hash, r.server, w.local, ps[|ps| - 1])
    ensures AllChecked(root, w, s, ps, r)
  {
    var k := |ps| - 1;
    assert ps == ps[..k] + [ps[k]];
    forall q | q in r.server && q !in s.server
      ensures exists p :: p in ps && q <= p
    {
      NewOnTheWay(ps[..k], ps[k], ps, q);
    }
  }

  /** One checksync without outage, from any good server tree and in any visiting order:
      every local path is backed up; below the root a path that is not local is on the server
      exactly if it was and neither it nor anything above it was queued, and is then as it was. */
  ghost predicate Synced(root: Path, w: World, s: State, r: State) {
    && r.deleted == [] && GoodServer(root, r.server)
    && r.connection >= s.connection + |s.deleted|
    && (w.local.Keys != {} ==> r.connection > s.connection)
    && (forall p :: p in w.local ==> BackedAt(w.hash, r.server, w.local, p))
    && (forall q :: q in r.server && root < q ==> q in w.local || Spared(s, q))
    && (forall q :: Spared(s, q) ==> q in r.server && (q !in w.local ==> r.server[q] == s.server[q]))
  }

  /** On the server, and neither queued for deletion nor below what is. */
  predicate Spared(s: State, q: Path) { q in s.server && forall x :: x in s.deleted ==> !(x <= q) }

  /** The queue drained without outage leaves exactly what was spared. */
  lemma DrainedSync(root: Path, w: World, s: State)
    requires GoodServer(root, s.server) && s.connection > 0
    requires NoSyncOutage(Drained(w, s).log, |s.log|)
    ensures var r := Drained(w, s);
      && GoodServer(root, r.server) && r.connection == s.connection + |s.deleted|
      && (forall q :: q in r.server ==> q in s.server && r.server[q] == s.server[q])
      && (forall q :: q in r.server <==> Spared(s, q))
  {
    DrainedExact(root, w, s);
    DrainOnline(w, Marked(s), s.deleted);
    forall q
      ensures Delivered(w, s, q) <==> exists x :: x in s.deleted && x <= q
    {
      AllDelivered(w, Marked(s), s.deleted, q);
    }
  }

  lemma AllDelivered(w: World, s: State, xs: seq<Path>, q: Path)
    requires forall i :: 0 <= i < |xs| ==> Connects(w, Drain(w, s, xs[..i]))
    ensures DeliveredFor(w, s, xs, q) <==> exists x :: x in xs && x <= q
  {
    forall x | x in xs && x <= q
      ensures DeliveredFor(w, s, xs, q)
    {
      var i :| 0 <= i < |xs| && xs[i] == x;
      assert Connects(w, Drain(w, s, xs[..i])) && xs[i] <= q;
    }
    assert forall i :: 0 <= i < |xs| ==> xs[i] in xs;
  }

  lemma CheckSyncOnline(root: Path, w: World, s: State)
    requires VisitsLocal(w) && GoodLocal(root, w.local) && GoodServer(root, s.server) && s.connection > 0
    requires NoSyncOutage(CheckSync(w, s).log, |s.log|)
    ensures Synced(root, w, s, CheckSync(w, s))
  {
    var s1 := Drained(w, s);
    var ps := w.visit(|s.log|);
    CheckAllLog(w, s1, ps);
    PrefixHasNoOutage(s1.log, CheckAll(w, s1, ps).log, |s.log|);
    DrainLog(w, Marked(s), s.deleted);
    DrainedSync(root, w, s);
    CheckAllOnline(root, w, s1, ps);
    CheckedIsSynced(root, w, s, s1, ps, CheckAll(w, s1, ps));
  }

  lemma CheckedIsSynced(root: Path, w: World, s: State, s1: State, ps: seq<Path>, r: State)
    requires GoodLocal(root, w.local) && Listed(ps, w.local) && forall p :: p in w.local ==> p in ps
    requires s1.deleted == [] && s1.connection == s.connection + |s.deleted|
    requires forall q :: q in s1.server ==> q in s.server && s1.server[q] == s.server[q]
    requires forall q :: q in s1.server <==> Spared(s, q)
    requires AllChecked(root, w, s1, ps, r)
    ensures Synced(root, w, s, r)
  {
    assert forall q :: q in ps ==> q in w.local;
    forall q | q in r.server && root < q
      ensures q in w.local || Spared(s, q)
    {
      if q !in s1.server {
        var p :| p in ps && q <= p;
        LocalPrefix(root, w.local, p, q);
      }
    }
    if w.local.Keys != {} {
      var p :| p in w.local.Keys;
      assert p in ps;
    }
  }
}
