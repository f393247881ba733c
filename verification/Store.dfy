/** What a request does to a tree: the operations of the server, on the whole disk or on the
    subtree of one user. */
module Store {
  import opened FileTree

  datatype Status =
    | Created | Accepted | NotSync | BadRequest | Unauthorized | NotFound | InternalError

  /** How a handler call ends: a reply; an exception from `create_directories`; a header that
      is not there; a reply whose status nobody sets. */
  datatype Outcome = Reply(status: Status) | Fault | NoSuchHeader | NoStatus

  datatype Result = Result(outcome: Outcome, tree: Tree)

  /** GET: compare the stored content with the digest in the request. */
  function Compare(hash: string -> string, t: Tree, p: Path, digest: string): Outcome {
    if p !in t then Reply(NotFound)
    else if hash(ContentOf(t[p])) == digest then Reply(Accepted)
    else Reply(NotSync)
  }

  /** POST of a file: replace what is at `p`, after creating the directory `dir`. */
  function StoreFile(t: Tree, p: Path, dir: Path, content: string): Result {
    var t1 := if p in t then RemoveAll(t, p) else t;
    if Blocked(t1, dir) then Result(Fault, t1)
    else
      var t2 := AddDirs(t1, dir);
      if CanWrite(t2, p) then Result(Reply(Created), t2[p := File(content)])
      else Result(Reply(InternalError), t2)
  }

  /** POST of a directory. */
  function MakeDirs(t: Tree, p: Path): Result {
    if Blocked(t, p) then Result(Fault, t) else Result(Reply(Created), AddDirs(t, p))
  }

  function Delete(t: Tree, p: Path): Result {
    if p in t then Result(Reply(Accepted), RemoveAll(t, p)) else Result(Reply(NotFound), t)
  }

  function Parent(p: Path): Path
    requires p != []
  {
    p[..|p| - 1]
  }

  function Last(p: Path): string
    requires p != []
  {
    p[|p| - 1]
  }

  /** POST as the client uses it: the name alone tells a file from a directory. */
  function Upload(t: Tree, p: Path, content: string): Result
    requires p != []
  {
    if NameExtension(Last(p)) != "" then StoreFile(t, p, Parent(p), content) else MakeDirs(t, p)
  }

  // ----- a file put in its own directory -----

  /** Storing a file whose directory is its parent: either something that is a file stands in
      the way, and nothing changes, or the file holds exactly the new content, its directories
      exist, what was below it is gone and everything else is as before. */
  lemma StoreFileEffect(t: Tree, p: Path, content: string)
    requires Closed(t) && p != []
    ensures var r := StoreFile(t, p, Parent(p), content);
      if Blocked(t, Parent(p)) then r == Result(Fault, t)
      else
        && r.outcome == Reply(Created)
        && (forall q :: q in r.tree <==> (q in t && !(p <= q)) || q <= p)
        && r.tree[p] == File(content)
        && forall q :: q in r.tree && q != p ==> r.tree[q] == if q in t then t[q] else Dir
  {
    if p in t {
      NothingAbove(t, p);
    }
    if !Blocked(t, Parent(p)) {
      NothingBelow(t, p);
      StoreUnblocked(t, if p in t then RemoveAll(t, p) else t, p, content);
    }
  }

  lemma StoreUnblocked(t: Tree, t1: Tree, p: Path, content: string)
    requires p != [] && !Blocked(t, Parent(p))
    requires forall q :: q in t1 <==> q in t && !(p <= q)
    requires forall q :: q in t1 ==> t1[q] == t[q]
    ensures !Blocked(t1, Parent(p))
    ensures var t2 := AddDirs(t1, Parent(p));
      && CanWrite(t2, p)
      && (forall q :: q in t2[p := File(content)] <==> (q in t && !(p <= q)) || q <= p)
      && (forall q :: q in t2 ==> t2[q] == if q in t then t[q] else Dir)
  {
    AncestryOfChild(p);
    var t2 := AddDirs(t1, Parent(p));
    assert Parent(p)[..|p| - 1] == Parent(p);
    assert forall q :: q <= p <==> q in Ancestry(Parent(p)) || q == p by {
      forall q: Path
        ensures q <= p <==> q in Ancestry(Parent(p)) || q == p
      {
        assert q in Ancestry(p) <==> q <= p;
      }
    }
  }

  lemma NothingAbove(t: Tree, p: Path)
    requires Closed(t) && p in t && p != []
    ensures !Blocked(t, Parent(p))
  {
    forall k | 0 <= k <= |p| - 1
      ensures Parent(p)[..k] in t && t[Parent(p)[..k]].Dir?
    {
      assert Parent(p)[..k] == p[..k];
      ClosedPrefix(t, p, k);
    }
  }

  lemma NothingBelow(t: Tree, p: Path)
    requires Closed(t)
    ensures p !in t ==> forall q :: q in t ==> !(p <= q)
  {
    forall q | q in t && p <= q
      ensures p in t
    {
      if |q| > |p| {
        ClosedPrefix(t, q, |p|);
        assert q[..|p|] == p;
      } else {
        assert q == p;
      }
    }
  }

  lemma AncestryOfChild(p: Path)
    requires p != []
    ensures Ancestry(p) == Ancestry(Parent(p)) + {p}
  {
    forall q | q in Ancestry(p) && q != p
      ensures q in Ancestry(Parent(p))
    {
      assert q == p[..|q|];
    }
  }

  // ----- what every operation keeps -----

  lemma StoreFileKeepsClosed(t: Tree, p: Path, dir: Path, content: string)
    requires Closed(t)
    ensures Closed(StoreFile(t, p, dir, content).tree)
  {
    RemoveKeepsClosed(t, p);
    var t1 := if p in t then RemoveAll(t, p) else t;
    if !Blocked(t1, dir) {
      AddDirsKeepsClosed(t1, dir);
      var t2 := AddDirs(t1, dir);
      if CanWrite(t2, p) {
        WriteKeepsClosed(t2, p, content);
      }
    }
  }

  lemma StoreFileKeepsNames(t: Tree, p: Path, dir: Path, content: string)
    requires FilesNamed(t) && p != [] && NameExtension(p[|p| - 1]) != ""
    ensures FilesNamed(StoreFile(t, p, dir, content).tree)
  {
    RemoveKeepsNames(t, p);
    var t1 := if p in t then RemoveAll(t, p) else t;
    AddDirsKeepsNames(t1, dir);
    WriteKeepsNames(AddDirs(t1, dir), p, content);
  }

  lemma MakeDirsKeeps(t: Tree, p: Path)
    requires Closed(t)
    ensures Closed(MakeDirs(t, p).tree)
    ensures FilesNamed(t) ==> FilesNamed(MakeDirs(t, p).tree)
  {
    if !Blocked(t, p) {
      AddDirsKeepsClosed(t, p);
    }
  }

  lemma DeleteKeeps(t: Tree, p: Path)
    requires Closed(t)
    ensures Closed(Delete(t, p).tree)
    ensures FilesNamed(t) ==> FilesNamed(Delete(t, p).tree)
  {
    RemoveKeepsClosed(t, p);
  }

  // ----- an operation below `base` is the operation on the subtree at `base` -----

  lemma CanWriteInView(t: Tree, base: Path, p: Path)
    requires p != []
    ensures CanWrite(t, base + p) <==> CanWrite(View(t, base), p)
  {
    assert (base + p)[..|base + p| - 1] == base + Parent(p);
  }

  /** The write at the end of a POST, once its directory can be made. */
  lemma WriteInView(t: Tree, base: Path, p: Path, dir: Path, content: string)
    requires p != []
    ensures var t2, v2 := AddDirs(t, base + dir), AddDirs(View(t, base), dir);
            && View(t2, base) == v2
            && (CanWrite(t2, base + p) <==> CanWrite(v2, p))
            && View(t2[base + p := File(content)], base) == v2[p := File(content)]
  {
    ViewAddDirs(t, base, dir);
    var t2 := AddDirs(t, base + dir);
    CanWriteInView(t2, base, p);
    ViewWrite(t2, base, p, File(content));
  }

  lemma RemoveInView(t: Tree, base: Path, p: Path)
    requires OpenBase(t, base)
    ensures var t1 := if base + p in t then RemoveAll(t, base + p) else t;
            && OpenBase(t1, base)
            && View(t1, base) == if p in View(t, base) then RemoveAll(View(t, base), p) else View(t, base)
  {
    ViewRemove(t, base, p);
  }

  lemma StoreFileInView(t: Tree, base: Path, p: Path, dir: Path, content: string)
    requires OpenBase(t, base) && p != []
    ensures var r, v := StoreFile(t, base + p, base + dir, content), StoreFile(View(t, base), p, dir, content);
            r.outcome == v.outcome && View(r.tree, base) == v.tree
  {
    RemoveInView(t, base, p);
    var t1 := if base + p in t then RemoveAll(t, base + p) else t;
    ViewBlocked(t1, base, dir);
    WriteInView(t1, base, p, dir, content);
  }

  lemma MakeDirsInView(t: Tree, base: Path, p: Path)
    requires OpenBase(t, base)
    ensures var r, v := MakeDirs(t, base + p), MakeDirs(View(t, base), p);
            r.outcome == v.outcome && View(r.tree, base) == v.tree
  {
    ViewBlocked(t, base, p);
    ViewAddDirs(t, base, p);
  }

  lemma DeleteInView(t: Tree, base: Path, p: Path)
    ensures var r, v := Delete(t, base + p), Delete(View(t, base), p);
            r.outcome == v.outcome && View(r.tree, base) == v.tree
  {
    ViewRemove(t, base, p);
  }

  // ----- nothing outside `base` is touched -----

  /** Outside the subtree at `base` nothing is changed or removed, and only directories on the
      way down to `base` are created. */
  ghost predicate OnlyBelow(t: Tree, t': Tree, base: Path) {
    && (forall q :: q in t && !(base <= q) ==> q in t' && t'[q] == t[q])
    && (forall q :: q in t' && !(base <= q) && q !in t ==> q <= base && t'[q] == Dir)
  }

  lemma PrefixesMeet(a: Path, b: Path, c: Path)
    ensures a <= c && b <= c ==> a <= b || b <= a
  {
    if |a| <= |b| <= |c| {
      assert c[..|b|][..|a|] == c[..|a|];
    } else if |b| <= |a| <= |c| {
      assert c[..|a|][..|b|] == c[..|b|];
    }
  }

  lemma RemoveOnlyBelow(t: Tree, base: Path, p: Path)
    ensures OnlyBelow(t, RemoveAll(t, base + p), base)
  {
    forall q | q in t && base + p <= q
      ensures base <= q
    {
      assert base <= base + p;
      assert q == base + p + q[|base + p|..];
    }
  }

  lemma AddDirsOnlyBelow(t: Tree, base: Path, p: Path)
    ensures OnlyBelow(t, AddDirs(t, base + p), base)
  {
    forall q | q in Ancestry(base + p) && !(base <= q)
      ensures q <= base
    {
      PrefixesMeet(q, base, base + p);
    }
  }

  lemma OnlyBelowTrans(t0: Tree, t1: Tree, t2: Tree, base: Path)
    requires OnlyBelow(t0, t1, base) && OnlyBelow(t1, t2, base)
    ensures OnlyBelow(t0, t2, base)
  {
  }

  lemma StoreFileOnlyBelow(t: Tree, base: Path, p: Path, dir: Path, content: string)
    ensures OnlyBelow(t, StoreFile(t, base + p, base + dir, content).tree, base)
  {
    var t1 := if base + p in t then RemoveAll(t, base + p) else t;
    RemoveOnlyBelow(t, base, p);
    assert OnlyBelow(t, t1, base);
    if !Blocked(t1, base + dir) {
      var t2 := AddDirs(t1, base + dir);
      AddDirsOnlyBelow(t1, base, dir);
      OnlyBelowTrans(t, t1, t2, base);
      assert base <= base + p;
      OnlyBelowTrans(t, t2, t2[base + p := File(content)], base);
    }
  }
}
