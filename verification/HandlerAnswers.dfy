/** How each kind of request is answered, in terms of what stands on the disk. */
module HandlerAnswers {
  import opened Text
  import opened Wire
  import opened FileTree
  import opened Store
  import opened RequestHandler
  import opened HandlerTheorems

  /** Where a request of a logged-in user works. */
  function Place(env: Env, req: RequestValue): Path
    requires UserOf(env, req).Some? && PathOf(env, req).Some?
  {
    Resolve(env.docRoot) + Resolve(UserOf(env, req).value) + Resolve(PathOf(env, req).value)
  }

  lemma PlaceIsFullPath(env: Env, req: RequestValue)
    requires UserOf(env, req).Some? && PathOf(env, req).Some?
    ensures Place(env, req) == Resolve(FullPath(env, UserOf(env, req).value, PathOf(env, req).value))
  {
    FullPathResolves(env, UserOf(env, req).value, PathOf(env, req).value);
  }

  /** Some path strictly above `at`, or up to it, is a regular file. */
  predicate FileAbove(d: Tree, at: Path, n: nat)
    requires n <= |at| + 1
  {
    exists k :: 0 <= k < n && at[..k] in d && d[at[..k]] != Dir
  }

  lemma FileAboveBlocks(d: Tree, at: Path, n: nat)
    requires n <= |at|
    ensures Blocked(d, at[..n]) <==> FileAbove(d, at, n + 1)
  {
    assert forall k :: 0 <= k <= n ==> at[..n][..k] == at[..k];
  }

  // ----- requests the handler does not work on -----

  /** Without the third header the handler fails; without an account that the credentials open,
      whatever is asked is answered "unauthorized". */
  lemma RefusedAnswers(env: Env, d: Tree, req: RequestValue)
    ensures |req.headers| < 3 ==> Handle(env, d, req) == Result(NoSuchHeader, d)
    ensures |req.headers| >= 3 && NoneOpens(env, env.rows, req.headers[2].value) ==>
              Handle(env, d, req) == Result(Reply(Unauthorized), d)
  {
    if |req.headers| >= 3 {
      NoAccount(env, req.headers[2].value);
    }
  }

  lemma NoAccount(env: Env, credentials: string)
    ensures NoneOpens(env, env.rows, credentials) ==> Login(env, env.rows, credentials).None?
  {
    LoginOpens(env, env.rows, credentials);
  }

  /** With one, a path that does not decode, is not absolute or holds two dots in a row is answered
      "bad request". */
  lemma BadPathAnswers(env: Env, d: Tree, req: RequestValue)
    requires UserOf(env, req).Some?
    requires var path := UrlDecode(env.hexPair, req.uri);
             path.None? || path.value == "" || path.value[0] != '/' || Contains(path.value, "..")
    ensures Handle(env, d, req) == Result(Reply(BadRequest), d)
  {
    NoPath(env, req);
    HandleCases(env, d, req);
  }

  lemma NoPath(env: Env, req: RequestValue)
    ensures PathOf(env, req).None? <==>
            var path := UrlDecode(env.hexPair, req.uri);
            path.None? || path.value == "" || path.value[0] != '/' || Contains(path.value, "..")
  {
  }

  // ----- DELETE -----

  /** DELETE takes away what stands at the place, with all below it, and is accepted; where nothing
      stands it is answered "not found". */
  lemma DeleteAnswers(env: Env, d: Tree, req: RequestValue)
    requires req.verb == "DELETE" && UserOf(env, req).Some? && PathOf(env, req).Some?
    ensures var r, at := Handle(env, d, req), Place(env, req);
      && (r.outcome == Reply(NotFound) <==> at !in d) && (r.outcome == Reply(Accepted) <==> at in d)
      && (at !in d ==> r.tree == d)
      && (at in d ==> r.tree == map q | q in d && !(at <= q) :: d[q])
  {
    var full := FullPath(env, UserOf(env, req).value, PathOf(env, req).value);
    PlaceIsFullPath(env, req);
    HandleCases(env, d, req);
    PerformDelete(env.hash, d, Resolve(full), Resolve(DirTree(full)), Extension(PathOf(env, req).value) != "", req);
  }

  lemma PerformDelete(hash: string -> string, d: Tree, at: Path, dir: Path, asFile: bool, req: RequestValue)
    requires req.verb == "DELETE"
    ensures PerformAt(hash, d, at, dir, asFile, req) ==
            if at in d then Result(Reply(Accepted), map q | q in d && !(at <= q) :: d[q])
            else Result(Reply(NotFound), d)
  {
  }

  // ----- POST -----

  /** With a regular file above it the handler fails and nothing changes; otherwise the file is
      created, with its directories, in the place of whatever was there. */
  ghost predicate FileAnswer(d: Tree, at: Path, content: string, r: Result) {
    if FileAbove(d, at, |at|) then r == Result(Fault, d)
    else
      && r.outcome == Reply(Created)
      && (forall q :: q in r.tree <==> (q in d && !(at <= q)) || q <= at)
      && r.tree[at] == File(content)
      && forall q :: q in r.tree && q != at ==> r.tree[q] == if q in d then d[q] else Dir
  }

  /** With a regular file in the way the handler fails and nothing changes; otherwise the directory is
      made, with those above it. */
  ghost predicate DirectoryAnswer(d: Tree, at: Path, r: Result) {
    if FileAbove(d, at, |at| + 1) then r == Result(Fault, d)
    else
      && r.outcome == Reply(Created)
      && (forall q :: q in r.tree <==> q in d || q <= at)
      && forall q :: q in r.tree ==> r.tree[q] == if q in d then d[q] else Dir
  }

  lemma StoreFileAnswers(d: Tree, at: Path, content: string)
    requires Closed(d) && at != []
    ensures FileAnswer(d, at, content, StoreFile(d, at, Parent(at), content))
  {
    FileAboveBlocks(d, at, |at| - 1);
    StoreFileEffect(d, at, content);
  }

  lemma MakeDirsAnswers(d: Tree, at: Path)
    ensures DirectoryAnswer(d, at, MakeDirs(d, at))
  {
    FileAboveBlocks(d, at, |at|);
    assert at[..|at|] == at;
  }

  lemma PostFilePerforms(env: Env, d: Tree, req: RequestValue)
    requires req.verb == "POST" && UserOf(env, req).Some? && PathOf(env, req).Some?
    requires var path := PathOf(env, req).value;
             Extension(path) != "" && Resolve(path) != [] && DirPath(path) == Parent(Resolve(path))
    ensures var at := Place(env, req);
            at != [] && Handle(env, d, req) == StoreFile(d, at, Parent(at), req.content)
  {
    PlaceIsFullPath(env, req);
    FilePlaces(env, UserOf(env, req).value, PathOf(env, req).value);
    HandleCases(env, d, req);
  }

  lemma FilePlaces(env: Env, email: string, path: string)
    requires PathAllowed(path) && Resolve(path) != [] && DirPath(path) == Parent(Resolve(path))
    ensures var full := FullPath(env, email, path);
            Resolve(full) != [] && Resolve(DirTree(full)) == Parent(Resolve(full))
  {
    var base, p := UserBase(env, email), Resolve(path);
    FullPathResolves(env, email, path);
    DirTreeResolves(env, email, path);
    assert Parent(base + p) == base + Parent(p);
  }

  /** POST of a file that goes into its own directory. */
  lemma PostFileAnswers(env: Env, d: Tree, req: RequestValue)
    requires req.verb == "POST" && UserOf(env, req).Some? && PathOf(env, req).Some? && Closed(d)
    requires var path := PathOf(env, req).value;
             Extension(path) != "" && Resolve(path) != [] && DirPath(path) == Parent(Resolve(path))
    ensures FileAnswer(d, Place(env, req), req.content, Handle(env, d, req))
  {
    PostFilePerforms(env, d, req);
    StoreFileAnswers(d, Place(env, req), req.content);
  }

  /** POST of anything else: a header that does not exist makes the handler fail, two empty headers
      are a probe, and otherwise it is a directory. */
  lemma PostDirectoryAnswers(env: Env, d: Tree, req: RequestValue)
    requires req.verb == "POST" && UserOf(env, req).Some? && PathOf(env, req).Some?
    requires Extension(PathOf(env, req).value) == ""
    ensures var r, hs := Handle(env, d, req), req.headers;
            if |hs| < 6 || (|hs| == 6 && hs[5].value == "") then r == Result(NoSuchHeader, d)
            else if hs[5].value == "" && hs[6].value == "" then r == Result(Reply(Accepted), d)
            else DirectoryAnswer(d, Place(env, req), r)
  {
    PostDirectoryPerforms(env, d, req);
    HeadersDecide(d, Place(env, req), req.headers);
    MakeDirsAnswers(d, Place(env, req));
  }

  lemma HeadersDecide(d: Tree, at: Path, hs: seq<Header>)
    ensures PostDirectory(d, at, hs) ==
            if |hs| < 6 || (|hs| == 6 && hs[5].value == "") then Result(NoSuchHeader, d)
            else if hs[5].value == "" && hs[6].value == "" then Result(Reply(Accepted), d)
            else MakeDirs(d, at)
  {
  }

  lemma PostDirectoryPerforms(env: Env, d: Tree, req: RequestValue)
    requires req.verb == "POST" && UserOf(env, req).Some? && PathOf(env, req).Some?
    requires Extension(PathOf(env, req).value) == ""
    ensures Handle(env, d, req) == PostDirectory(d, Place(env, req), req.headers)
  {
    PlaceIsFullPath(env, req);
    HandleCases(env, d, req);
  }

  lemma PerformOther(hash: string -> string, d: Tree, at: Path, dir: Path, asFile: bool, req: RequestValue)
    requires req.verb != "GET" && req.verb != "POST" && req.verb != "DELETE"
    ensures PerformAt(hash, d, at, dir, asFile, req) == Result(NoStatus, d)
  {
  }

  /** Any other method is answered without a status, and changes nothing. */
  lemma OtherAnswers(env: Env, d: Tree, req: RequestValue)
    requires UserOf(env, req).Some? && PathOf(env, req).Some?
    requires req.verb != "GET" && req.verb != "POST" && req.verb != "DELETE"
    ensures Handle(env, d, req) == Result(NoStatus, d)
  {
    var full := FullPath(env, UserOf(env, req).value, PathOf(env, req).value);
    HandleCases(env, d, req);
    PerformOther(env.hash, d, Resolve(full), Resolve(DirTree(full)), Extension(PathOf(env, req).value) != "", req);
  }
}
