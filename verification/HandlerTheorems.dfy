/** What every request, and every run of requests, does to the disk. */
module HandlerTheorems {
  import opened Text
  import opened Wire
  import opened FileTree
  import opened Store
  import opened RequestHandler

  // ----- url decoding -----

  /** Decoding is a partial homomorphism. */
  lemma {:induction false} DecodeConcat(hexPair: (char, char) -> Option<char>, a: string, b: string)
    requires UrlDecode(hexPair, a).Some?
    ensures UrlDecode(hexPair, a + b) == Prepend(UrlDecode(hexPair, a).value, UrlDecode(hexPair, b))
    decreases |a|
  {
    if a == "" {
      assert a + b == b;
      var r := UrlDecode(hexPair, b);
      assert r.Some? ==> "" + r.value == r.value;
    } else {
      var n := if a[0] == '%' then 3 else 1;
      DecodeConcat(hexPair, a[n..], b);
      assert (a + b)[n..] == a[n..] + b;
      var c := if a[0] == '%' then hexPair(a[1], a[2]).value else if a[0] == '+' then ' ' else a[0];
      PrependTwice([c], UrlDecode(hexPair, a[n..]).value, UrlDecode(hexPair, b));
    }
  }

  /** The number of escapes a decoding run meets. */
  function Escapes(s: string): nat {
    if s == "" then 0
    else if s[0] == '%' then (if |s| < 3 then 0 else 1 + Escapes(s[3..]))
    else Escapes(s[1..])
  }

  /** Each escape shortens the text by two bytes, and nothing else does. */
  lemma {:induction false} DecodeLength(hexPair: (char, char) -> Option<char>, s: string)
    ensures var r := UrlDecode(hexPair, s); r.Some? ==> |r.value| + 2 * Escapes(s) == |s|
    decreases |s|
  {
    if s != "" && (s[0] != '%' || |s| >= 3) {
      DecodeLength(hexPair, s[if s[0] == '%' then 3 else 1..]);
    }
  }

  predicate Unescaped(s: string) { forall i :: 0 <= i < |s| ==> s[i] != '%' && s[i] != '+' }

  /** Decoding gives back the same text exactly when the text holds no '%' and no '+'. */
  lemma {:induction false} DecodeIdentity(hexPair: (char, char) -> Option<char>, s: string)
    ensures UrlDecode(hexPair, s) == Some(s) <==> Unescaped(s)
    decreases |s|
  {
    if s == "" {
    } else if s[0] == '%' {
      DecodeLength(hexPair, s);
    } else {
      DecodeIdentity(hexPair, s[1..]);
      if s[0] != '+' {
        var r := UrlDecode(hexPair, s[1..]);
        if r.Some? && [s[0]] + r.value == s {
          assert r.value == ([s[0]] + r.value)[1..];
        }
        assert [s[0]] + s[1..] == s;
        assert Unescaped(s) <==> Unescaped(s[1..]) by {
          assert forall i :: 0 < i < |s| ==> s[i] == s[1..][i - 1];
        }
      }
    }
  }

  // ----- where a request works -----

  /** The root of a user's tree. */
  function UserBase(env: Env, email: string): Path { Resolve(env.docRoot) + Resolve(email) }

  /** The directory made for a file, relative to the user's root. */
  function DirPath(path: string): Path
    requires PathAllowed(path)
  {
    LastSeparator(path);
    Resolve(path[..LastOf(path, '\\', '/')])
  }

  lemma LastSeparator(path: string)
    requires PathAllowed(path)
    ensures LastOf(path, '\\', '/') >= 0 && LastOf(path, '/', '/') >= 0
  {
    LastOfSpec(path, '\\', '/');
    LastOfSpec(path, '/', '/');
  }

  lemma FullPathResolves(env: Env, email: string, path: string)
    ensures Resolve(FullPath(env, email, path)) == UserBase(env, email) + Resolve(path)
  {
    ResolveConcat(env.docRoot, email);
    ResolveConcat(env.docRoot + "/" + email, path);
  }

  lemma DirTreeText(env: Env, email: string, path: string)
    requires LastOf(path, '\\', '/') >= 0
    ensures DirTree(FullPath(env, email, path)) == FullPath(env, email, path[..LastOf(path, '\\', '/')])
  {
    var a := env.docRoot + "/" + email + "/";
    LastOfConcat(a, path, '\\', '/');
    assert FullPath(env, email, path) == a + path;
    assert (a + path)[..|a| + LastOf(path, '\\', '/')] == a + path[..LastOf(path, '\\', '/')];
  }

  /** The parent computed with `find_last_of` lies below the user's root for every path. */
  lemma DirTreeResolves(env: Env, email: string, path: string)
    requires PathAllowed(path)
    ensures Resolve(DirTree(FullPath(env, email, path))) == UserBase(env, email) + DirPath(path)
  {
    LastSeparator(path);
    DirTreeText(env, email, path);
    FullPathResolves(env, email, path[..LastOf(path, '\\', '/')]);
  }

  /** Every path a request works on lies below the user's root. */
  lemma PerformBelowBase(env: Env, d: Tree, email: string, path: string, req: RequestValue)
    requires PathAllowed(path)
    ensures var base := UserBase(env, email);
            Perform(env, d, email, path, req) ==
            PerformAt(env.hash, d, base + Resolve(path), base + DirPath(path), Extension(path) != "", req)
  {
    FullPathResolves(env, email, path);
    DirTreeResolves(env, email, path);
  }

  /** An operation on the disk and one on the subtree at `base` have the same outcome and
      leave the same subtree. */
  predicate SameInView(r: Result, base: Path, v: Result) {
    r.outcome == v.outcome && View(r.tree, base) == v.tree
  }

  lemma PostDirectoryInView(d: Tree, base: Path, p: Path, headers: seq<Header>)
    requires OpenBase(d, base)
    ensures SameInView(PostDirectory(d, base + p, headers), base, PostDirectory(View(d, base), p, headers))
  {
    MakeDirsInView(d, base, p);
  }

  lemma PostFileInView(hash: string -> string, d: Tree, base: Path, p: Path, dir: Path, req: RequestValue)
    requires OpenBase(d, base) && p != [] && req.verb == "POST"
    ensures SameInView(PerformAt(hash, d, base + p, base + dir, true, req), base,
                       PerformAt(hash, View(d, base), p, dir, true, req))
  {
    StoreFileInView(d, base, p, dir, req.content);
  }

  lemma PostOtherInView(hash: string -> string, d: Tree, base: Path, p: Path, dir: Path, req: RequestValue)
    requires OpenBase(d, base) && req.verb == "POST"
    ensures SameInView(PerformAt(hash, d, base + p, base + dir, false, req), base,
                       PerformAt(hash, View(d, base), p, dir, false, req))
  {
    PostDirectoryInView(d, base, p, req.headers);
  }

  lemma OtherVerbsInView(hash: string -> string, d: Tree, base: Path, p: Path, dir: Path, asFile: bool,
                         req: RequestValue)
    requires req.verb != "POST"
    ensures SameInView(PerformAt(hash, d, base + p, base + dir, asFile, req), base,
                       PerformAt(hash, View(d, base), p, dir, asFile, req))
  {
    if req.verb == "DELETE" {
      DeleteInView(d, base, p);
    } else {
      CompareInView(hash, d, base, p, req.content);
    }
  }

  lemma CompareInView(hash: string -> string, d: Tree, base: Path, p: Path, digest: string)
    ensures Compare(hash, d, base + p, digest) == Compare(hash, View(d, base), p, digest)
  {
  }

  /** Reads and writes alike stay in the subtree: outcome and new subtree are a function of
      that subtree alone. */
  lemma PerformAtInView(hash: string -> string, d: Tree, base: Path, p: Path, dir: Path, asFile: bool,
                        req: RequestValue)
    requires OpenBase(d, base) && (asFile ==> p != [])
    ensures SameInView(PerformAt(hash, d, base + p, base + dir, asFile, req), base,
                       PerformAt(hash, View(d, base), p, dir, asFile, req))
  {
    if req.verb != "POST" {
      OtherVerbsInView(hash, d, base, p, dir, asFile, req);
    } else if asFile {
      PostFileInView(hash, d, base, p, dir, req);
    } else {
      PostOtherInView(hash, d, base, p, dir, req);
    }
  }

  /** The same for a request path: the user's own tree alone matters. */
  lemma PerformInView(env: Env, d: Tree, email: string, path: string, req: RequestValue)
    requires PathAllowed(path) && OpenBase(d, UserBase(env, email))
    ensures SameInView(Perform(env, d, email, path, req), UserBase(env, email),
                       PerformAt(env.hash, View(d, UserBase(env, email)), Resolve(path), DirPath(path),
                                 Extension(path) != "", req))
  {
    PerformBelowBase(env, d, email, path, req);
    if Extension(path) != "" {
      ExtensionNamesFile(path);
    }
    PerformAtInView(env.hash, d, UserBase(env, email), Resolve(path), DirPath(path), Extension(path) != "", req);
  }

  lemma PerformAtOnlyBelow(hash: string -> string, d: Tree, base: Path, p: Path, dir: Path, asFile: bool,
                           req: RequestValue)
    ensures OnlyBelow(d, PerformAt(hash, d, base + p, base + dir, asFile, req).tree, base)
  {
    if req.verb == "POST" && asFile {
      StoreFileOnlyBelow(d, base, p, dir, req.content);
    } else if req.verb == "POST" {
      AddDirsOnlyBelow(d, base, p);
    } else {
      RemoveOnlyBelow(d, base, p);
    }
  }

  /** The user a request is authenticated as. */
  function UserOf(env: Env, req: RequestValue): Option<string> {
    if |req.headers| < 3 then None else Login(env, env.rows, req.headers[2].value)
  }

  /** The decoded path of a request, if it is one the handler works on. */
  function PathOf(env: Env, req: RequestValue): Option<string> {
    var path := UrlDecode(env.hexPair, req.uri);
    if path.Some? && PathAllowed(path.value) then path else None
  }

  lemma HandleCases(env: Env, d: Tree, req: RequestValue)
    ensures var user, path := UserOf(env, req), PathOf(env, req);
            if user.None? then Handle(env, d, req).tree == d
            else if path.None? then Handle(env, d, req) == Result(Reply(BadRequest), d)
            else Handle(env, d, req) == Perform(env, d, user.value, path.value, req)
  {
  }

  /** Frame: without a login nothing changes; with one, nothing outside that user's root. */
  lemma HandleFrame(env: Env, d: Tree, req: RequestValue)
    ensures var user := UserOf(env, req);
            if user.None? then Handle(env, d, req).tree == d
            else OnlyBelow(d, Handle(env, d, req).tree, UserBase(env, user.value))
  {
    HandleCases(env, d, req);
    if UserOf(env, req).Some? && PathOf(env, req).Some? {
      var email, path := UserOf(env, req).value, PathOf(env, req).value;
      PerformBelowBase(env, d, email, path, req);
      PerformAtOnlyBelow(env.hash, d, UserBase(env, email), Resolve(path), DirPath(path), Extension(path) != "", req);
    }
  }

  // ----- what every request keeps -----

  lemma PostFileKeeps(d: Tree, at: Path, dir: Path, content: string)
    requires Closed(d) && FilesNamed(d) && at != [] && NameExtension(at[|at| - 1]) != ""
    ensures var r := StoreFile(d, at, dir, content).tree; Closed(r) && FilesNamed(r)
  {
    StoreFileKeepsClosed(d, at, dir, content);
    StoreFileKeepsNames(d, at, dir, content);
  }

  lemma OthersKeep(d: Tree, at: Path)
    requires Closed(d) && FilesNamed(d)
    ensures var r := MakeDirs(d, at).tree; Closed(r) && FilesNamed(r)
    ensures var r := Delete(d, at).tree; Closed(r) && FilesNamed(r)
  {
    MakeDirsKeeps(d, at);
    DeleteKeeps(d, at);
  }

  lemma PerformAtKeeps(hash: string -> string, d: Tree, at: Path, dir: Path, asFile: bool, req: RequestValue)
    requires Closed(d) && FilesNamed(d)
    requires asFile ==> at != [] && NameExtension(at[|at| - 1]) != ""
    ensures var r := PerformAt(hash, d, at, dir, asFile, req).tree; Closed(r) && FilesNamed(r)
  {
    if req.verb == "POST" && asFile {
      PostFileKeeps(d, at, dir, req.content);
    } else {
      OthersKeep(d, at);
    }
  }

  lemma StoredAtName(env: Env, email: string, path: string)
    requires Extension(path) != ""
    ensures var at := Resolve(FullPath(env, email, path)); at != [] && NameExtension(at[|at| - 1]) != ""
  {
    FullPathResolves(env, email, path);
    ExtensionNamesFile(path);
  }

  lemma PerformKeeps(env: Env, d: Tree, email: string, path: string, req: RequestValue)
    requires Closed(d) && FilesNamed(d)
    ensures var r := Perform(env, d, email, path, req).tree; Closed(r) && FilesNamed(r)
  {
    var full := FullPath(env, email, path);
    var asFile := Extension(path) != "";
    if asFile {
      StoredAtName(env, email, path);
    }
    PerformAtKeeps(env.hash, d, Resolve(full), Resolve(DirTree(full)), asFile, req);
  }

  /** The disk after a run of requests. */
  function HandleAll(env: Env, d: Tree, reqs: seq<RequestValue>): Tree {
    if reqs == [] then d
    else Handle(env, HandleAll(env, d, reqs[..|reqs| - 1]), reqs[|reqs| - 1]).tree
  }

  /** Over any run of any requests the disk stays a tree, with regular files only at names
      that have an extension. */
  lemma {:induction false} StoreInvariant(env: Env, d: Tree, reqs: seq<RequestValue>)
    requires Closed(d) && FilesNamed(d)
    ensures Closed(HandleAll(env, d, reqs)) && FilesNamed(HandleAll(env, d, reqs))
    decreases |reqs|
  {
    if reqs != [] {
      var d1 := HandleAll(env, d, reqs[..|reqs| - 1]);
      var req := reqs[|reqs| - 1];
      StoreInvariant(env, d, reqs[..|reqs| - 1]);
      HandleCases(env, d1, req);
      if UserOf(env, req).Some? && PathOf(env, req).Some? {
        PerformKeeps(env, d1, UserOf(env, req).value, PathOf(env, req).value, req);
      }
    }
  }

  /** Two roots neither of which lies in the other. */
  predicate Apart(a: Path, b: Path) { !(a <= b) && !(b <= a) }

  lemma OnlyBelowElsewhere(t: Tree, t': Tree, base: Path, other: Path)
    requires OnlyBelow(t, t', base) && Apart(base, other)
    ensures View(t', other) == View(t, other)
  {
    forall r
      ensures !(base <= other + r) && !(other + r <= base)
    {
      PrefixesMeet(base, other, other + r);
      PrefixTrans(other, other + r, base);
    }
  }

  lemma PrefixTrans(a: Path, b: Path, c: Path)
    ensures a <= b <= c ==> a <= c
  {
    if |a| <= |b| <= |c| {
      assert c[..|b|][..|a|] == c[..|a|];
    }
  }

  /** Another user's tree is unchanged by any run of requests none of which is his. */
  lemma {:induction false} OtherUsersUntouched(env: Env, d: Tree, reqs: seq<RequestValue>, other: Path)
    requires forall i :: 0 <= i < |reqs| && UserOf(env, reqs[i]).Some? ==>
               Apart(UserBase(env, UserOf(env, reqs[i]).value), other)
    ensures View(HandleAll(env, d, reqs), other) == View(d, other)
    decreases |reqs|
  {
    if reqs != [] {
      var k := |reqs| - 1;
      var d1 := HandleAll(env, d, reqs[..k]);
      OtherUsersUntouched(env, d, reqs[..k], other);
      HandleFrame(env, d1, reqs[k]);
      if UserOf(env, reqs[k]).Some? {
        OnlyBelowElsewhere(d1, Handle(env, d1, reqs[k]).tree, UserBase(env, UserOf(env, reqs[k]).value), other);
      }
    }
  }

  /** Different plain emails have roots apart. */
  lemma UsersApart(env: Env, a: string, b: string)
    requires Plain(a) && Plain(b) && a != b
    ensures Apart(UserBase(env, a), UserBase(env, b))
  {
    PlainResolves(a);
    PlainResolves(b);
    var root := Resolve(env.docRoot);
    assert (root + [a])[|root|] == a && (root + [b])[|root|] == b;
  }

  /** Requests that never change the disk: GETs, and POSTs without extension whose
      Content-Length and Content-Type are empty, as the login and reconnect probes send. */
  lemma ProbesChangeNothing(env: Env, d: Tree, req: RequestValue)
    requires req.verb == "GET" ||
             (req.verb == "POST" && |req.headers| >= 7 && req.headers[5].value == "" && req.headers[6].value == ""
              && (PathOf(env, req).Some? ==> Extension(PathOf(env, req).value) == ""))
    ensures Handle(env, d, req).tree == d
    ensures req.verb == "POST" ==>
              Handle(env, d, req).outcome ==
              if UserOf(env, req).None? then Reply(Unauthorized)
              else if PathOf(env, req).None? then Reply(BadRequest)
              else Reply(Accepted)
  {
    HandleCases(env, d, req);
  }

  /** A GET finds nothing, or is answered with the stored bytes, whose digest decides the status. */
  lemma GetAnswersBody(env: Env, d: Tree, req: RequestValue)
    requires req.verb == "GET" && UserOf(env, req).Some? && PathOf(env, req).Some?
    ensures var o, body := Handle(env, d, req).outcome, ReplyBody(env, d, req);
            var at := UserBase(env, UserOf(env, req).value) + Resolve(PathOf(env, req).value);
            && (o == Reply(NotFound) <==> at !in d)
            && (o == Reply(Accepted) <==> at in d && env.hash(body) == req.content)
            && (at in d ==> body == ContentOf(d[at]))
  {
    FullPathResolves(env, UserOf(env, req).value, PathOf(env, req).value);
  }

  // ----- errors change nothing, except one -----

  predicate Succeeded(o: Outcome) { o == Reply(Created) || o == Reply(Accepted) }

  /** A file about to be replaced is removed, and then its directory cannot be made. */
  predicate LosesFile(env: Env, d: Tree, req: RequestValue) {
    && UserOf(env, req).Some? && PathOf(env, req).Some?
    && req.verb == "POST" && Extension(PathOf(env, req).value) != ""
    && var full := FullPath(env, UserOf(env, req).value, PathOf(env, req).value);
       Resolve(full) in d && Blocked(RemoveAll(d, Resolve(full)), Resolve(DirTree(full)))
  }

  /** With a backslash after the last slash the directory made is a sibling of the file. */
  lemma BackslashDir(path: string) returns (n: string)
    requires PathAllowed(path) && Extension(path) != ""
    requires LastOf(path, '\\', '/') > LastOf(path, '/', '/')
    ensures DirPath(path) == Resolve(path[..LastOf(path, '/', '/')]) + Component(n)
    ensures |n| < |path[LastOf(path, '/', '/') + 1..]|
  {
    LastSeparator(path);
    LastOfSpec(path, '/', '/');
    var slash, sep := LastOf(path, '/', '/'), LastOf(path, '\\', '/');
    n := path[slash + 1..sep];
    assert path[..sep] == path[..slash] + "/" + n;
    ResolveConcat(path[..slash], n);
    FirstSlashUnique(n, |n|);
  }

  lemma SlashDir(path: string)
    requires PathAllowed(path) && Extension(path) != ""
    requires LastOf(path, '\\', '/') <= LastOf(path, '/', '/')
    ensures Resolve(path) != [] && DirPath(path) == Parent(Resolve(path))
  {
    LastNameResolves(path);
    SlashIsSeparator(path);
    var a, name := Resolve(path[..LastOf(path, '/', '/')]), path[LastOf(path, '/', '/') + 1..];
    assert Parent(a + [name]) == a;
  }

  lemma SiblingDir(path: string)
    requires PathAllowed(path) && Extension(path) != ""
    requires LastOf(path, '\\', '/') > LastOf(path, '/', '/')
    ensures Resolve(path) != []
    ensures Parent(Resolve(path)) <= DirPath(path) && !(Resolve(path) <= DirPath(path))
  {
    LastNameResolves(path);
    var n := BackslashDir(path);
    var a, name := Resolve(path[..LastOf(path, '/', '/')]), path[LastOf(path, '/', '/') + 1..];
    assert Parent(a + [name]) == a;
    NotBelow(a, name, n);
  }

  /** The true parent of a stored file is the directory that is made, or lies above it; and
      the file itself is neither. */
  lemma DirCoversParent(path: string)
    requires PathAllowed(path) && Extension(path) != ""
    ensures Resolve(path) != []
    ensures Parent(Resolve(path)) <= DirPath(path)
    ensures !(Resolve(path) <= DirPath(path))
  {
    if LastOf(path, '\\', '/') > LastOf(path, '/', '/') {
      SiblingDir(path);
    } else {
      SlashDir(path);
    }
  }

  lemma SlashIsSeparator(path: string)
    ensures LastOf(path, '/', '/') <= LastOf(path, '\\', '/')
  {
    LastOfSpec(path, '/', '/');
    LastOfSpec(path, '\\', '/');
  }

  lemma NotBelow(a: Path, name: string, n: string)
    requires n != name
    ensures !(a + [name] <= a + Component(n)) && a <= a + Component(n)
  {
    if n != "" && n != "." {
      assert (a + [n])[|a|] == n && (a + [name])[|a|] == name;
    }
  }

  lemma PostFileWrites(env: Env, d: Tree, email: string, path: string, content: string)
    requires PathAllowed(path) && Extension(path) != ""
    ensures var full := FullPath(env, email, path);
            StoreFile(d, Resolve(full), Resolve(DirTree(full)), content).outcome != Reply(InternalError)
  {
    FullPathResolves(env, email, path);
    DirTreeResolves(env, email, path);
    DirCoversParent(path);
    StoreFileCanWrite(d, UserBase(env, email), Resolve(path), DirPath(path), content);
  }

  lemma PerformWrites(env: Env, d: Tree, email: string, path: string, req: RequestValue)
    requires PathAllowed(path)
    ensures Perform(env, d, email, path, req).outcome != Reply(InternalError)
  {
    if req.verb == "POST" && Extension(path) != "" {
      PostFileWrites(env, d, email, path, req.content);
    }
  }

  /** Storing a file never ends in an internal error: its directory is always made first. */
  lemma NeverInternalError(env: Env, d: Tree, req: RequestValue)
    ensures Handle(env, d, req).outcome != Reply(InternalError)
  {
    if UserOf(env, req).Some? && PathOf(env, req).Some? {
      PerformWrites(env, d, UserOf(env, req).value, PathOf(env, req).value, req);
    }
  }

  lemma StoreFileCanWrite(d: Tree, base: Path, p: Path, dir: Path, content: string)
    requires p != [] && Parent(p) <= dir && !(p <= dir)
    ensures StoreFile(d, base + p, base + dir, content).outcome != Reply(InternalError)
  {
    var t1 := if base + p in d then RemoveAll(d, base + p) else d;
    if !Blocked(t1, base + dir) {
      var t2 := AddDirs(t1, base + dir);
      UnderBase(base, p, dir);
      UnderBase(base, Parent(p), dir);
      assert (base + p)[..|base + p| - 1] == base + Parent(p);
      var k := |base + Parent(p)|;
      assert (base + dir)[..k] == base + Parent(p);
      assert CanWrite(t2, base + p);
    }
  }

  lemma ErrorsAt(hash: string -> string, d: Tree, at: Path, dir: Path, asFile: bool, req: RequestValue)
    requires var o := PerformAt(hash, d, at, dir, asFile, req).outcome;
             !Succeeded(o) && o != Reply(InternalError)
    ensures PerformAt(hash, d, at, dir, asFile, req).tree == d <==>
            !(req.verb == "POST" && asFile && at in d && Blocked(RemoveAll(d, at), dir))
  {
    if req.verb == "POST" && asFile && at in d && Blocked(RemoveAll(d, at), dir) {
      assert at !in PerformAt(hash, d, at, dir, asFile, req).tree;
    }
  }

  /** "In case of error, no change will happen on the server side": true of every request
      that does not succeed, except exactly those that lose a file. */
  lemma ErrorsChangeNothing(env: Env, d: Tree, req: RequestValue)
    requires !Succeeded(Handle(env, d, req).outcome)
    ensures Handle(env, d, req).tree == d <==> !LosesFile(env, d, req)
  {
    NeverInternalError(env, d, req);
    if UserOf(env, req).Some? && PathOf(env, req).Some? {
      var path := PathOf(env, req).value;
      var full := FullPath(env, UserOf(env, req).value, path);
      ErrorsAt(env.hash, d, Resolve(full), Resolve(DirTree(full)), Extension(path) != "", req);
    }
  }

  /** Losing a file takes a backslash after the last slash. */
  lemma OnlyBackslashLosesFile(env: Env, d: Tree, req: RequestValue)
    requires Closed(d) && LosesFile(env, d, req)
    ensures var path := PathOf(env, req).value; LastOf(path, '\\', '/') > LastOf(path, '/', '/')
  {
    var email, path := UserOf(env, req).value, PathOf(env, req).value;
    if LastOf(path, '\\', '/') <= LastOf(path, '/', '/') {
      SlashLosesNothing(env, d, email, path);
    }
  }

  lemma SlashDirOnDisk(env: Env, email: string, path: string)
    requires PathAllowed(path) && Extension(path) != ""
    requires LastOf(path, '\\', '/') <= LastOf(path, '/', '/')
    ensures var full := FullPath(env, email, path);
            Resolve(full) != [] && Resolve(DirTree(full)) == Parent(Resolve(full))
  {
    var base, p := UserBase(env, email), Resolve(path);
    FullPathResolves(env, email, path);
    DirTreeResolves(env, email, path);
    SlashDir(path);
    assert base + Parent(p) == Parent(base + p);
  }

  lemma SlashLosesNothing(env: Env, d: Tree, email: string, path: string)
    requires Closed(d) && PathAllowed(path) && Extension(path) != ""
    requires LastOf(path, '\\', '/') <= LastOf(path, '/', '/')
    requires Resolve(FullPath(env, email, path)) in d
    ensures var full := FullPath(env, email, path);
            !Blocked(RemoveAll(d, Resolve(full)), Resolve(DirTree(full)))
  {
    SlashDirOnDisk(env, email, path);
    NotBlockedByItself(d, Resolve(FullPath(env, email, path)));
  }

  lemma NotBlockedByItself(d: Tree, at: Path)
    requires Closed(d) && at in d && at != []
    ensures !Blocked(RemoveAll(d, at), Parent(at))
  {
    NothingAbove(d, at);
  }

  // ----- it does happen -----

  /** A user's root with two files, one named by the other's name, a backslash and more. */
  function LossDisk(base: Path): Tree {
    AddDirs(map[], base)[base + ["a.txt"] := File("")][base + ["a.txt\\b.txt"] := File("")]
  }

  /** POST of the second file again. */
  function LossRequest(headers: seq<Header>, content: string): RequestValue {
    RequestValue("POST", "/a.txt\\b.txt", 1, 0, headers, content)
  }

  /** Whoever is logged in: replacing `a.txt\b.txt` next to a file `a.txt` fails and loses it. */
  lemma FileLost(env: Env, email: string, headers: seq<Header>, content: string)
    requires |headers| >= 3 && Login(env, env.rows, headers[2].value) == Some(email)
    ensures var base, req := UserBase(env, email), LossRequest(headers, content);
            var d := LossDisk(base);
            && Closed(d) && LosesFile(env, d, req)
            && Handle(env, d, req) == Result(Fault, d - {base + ["a.txt\\b.txt"]})
  {
    var base, req := UserBase(env, email), LossRequest(headers, content);
    var p, q := base + ["a.txt"], base + ["a.txt\\b.txt"];
    FileLostPath();
    LossPath(env, req);
    LossTree(LossDisk(base), base, p, q);
    LossPlaces(env, email, req.uri);
    LossHandled(env, LossDisk(base), email, req, q, p);
  }

  lemma LossPath(env: Env, req: RequestValue)
    requires req.uri == "/a.txt\\b.txt" && PathAllowed(req.uri)
    ensures PathOf(env, req) == Some(req.uri)
  {
    DecodeIdentity(env.hexPair, req.uri);
  }

  lemma LossPlaces(env: Env, email: string, path: string)
    requires PathAllowed(path) && Resolve(path) == ["a.txt\\b.txt"] && DirPath(path) == ["a.txt"]
    ensures Resolve(FullPath(env, email, path)) == UserBase(env, email) + ["a.txt\\b.txt"]
    ensures Resolve(DirTree(FullPath(env, email, path))) == UserBase(env, email) + ["a.txt"]
  {
    FullPathResolves(env, email, path);
    DirTreeResolves(env, email, path);
  }

  /** A POST of a file that is there, with a file in the place of its directory. */
  lemma LossHandled(env: Env, d: Tree, email: string, req: RequestValue, at: Path, dir: Path)
    requires UserOf(env, req) == Some(email) && PathOf(env, req) == Some(req.uri)
    requires req.verb == "POST" && Extension(req.uri) != ""
    requires at == Resolve(FullPath(env, email, req.uri)) && dir == Resolve(DirTree(FullPath(env, email, req.uri)))
    requires at in d && Blocked(RemoveAll(d, at), dir)
    ensures LosesFile(env, d, req) && Handle(env, d, req) == Result(Fault, RemoveAll(d, at))
  {
    HandleCases(env, d, req);
  }

  lemma LossTree(d: Tree, base: Path, p: Path, q: Path)
    requires |p| == |q| == |base| + 1 && p[..|base|] == base && q[..|base|] == base && p[|base|] != q[|base|]
    requires d == AddDirs(map[], base)[p := File("")][q := File("")]
    ensures Closed(d) && q in d && RemoveAll(d, q) == d - {q} && Blocked(RemoveAll(d, q), p)
  {
    LossClosed(base, p, q);
    LossRemoved(d, base, p, q);
    assert p[..|p|] == p && p in RemoveAll(d, q);
  }

  lemma LossClosed(base: Path, p: Path, q: Path)
    requires |p| == |q| == |base| + 1 && p[..|base|] == base && q[..|base|] == base && p != q
    ensures Closed(AddDirs(map[], base)[p := File("")][q := File("")])
  {
    var t := AddDirs(map[], base);
    AddDirsKeepsClosed(map[], base);
    WriteKeepsClosed(t, p, "");
    WriteKeepsClosed(t[p := File("")], q, "");
  }

  lemma LossRemoved(d: Tree, base: Path, p: Path, q: Path)
    requires |p| == |q| == |base| + 1 && p != q
    requires forall r :: r in d ==> r <= base || r == p || r == q
    ensures RemoveAll(d, q) == d - {q}
  {
    forall r | r in d
      ensures q <= r <==> r == q
    {
    }
  }

  function SomeEnv(): Env { Env("", [""], (s: string) => s, (s: string) => s, (a: char, b: char) => None) }

  /** So there are an environment, a disk and a request that lose a file. */
  lemma FilesAreLost()
    ensures exists env, d, req :: Closed(d) && LosesFile(env, d, req) && Handle(env, d, req).tree != d
  {
    var env, headers := SomeEnv(), [Header("", ""), Header("", ""), Header("", "")];
    assert Find("", ",") == -1;
    assert Login(env, env.rows, "") == Some("");
    FileLost(env, "", headers, "");
    var base := UserBase(env, "");
    assert base + ["a.txt\\b.txt"] in LossDisk(base);
  }

  lemma FileLostPath()
    ensures var path := "/a.txt\\b.txt";
            && PathAllowed(path) && Extension(path) != ""
            && Resolve(path) == ["a.txt\\b.txt"] && DirPath(path) == ["a.txt"]
  {
    var name := "a.txt\\b.txt";
    assert "/a.txt\\b.txt" == "" + "/" + name;
    FileLostPathOf("a.txt", name);
  }

  lemma FileLostPathOf(a: string, name: string)
    requires a == "a.txt" && name == "a.txt\\b.txt"
    ensures var path := "" + "/" + name;
            && PathAllowed(path) && Extension(path) != ""
            && Resolve(path) == [name] && DirPath(path) == [a]
  {
    var path := "" + "/" + name;
    assert Extension(path) != "" by {
      LastOfUnique(name, '.', '.', 7);
      ExtensionOfLast("", name);
    }
    assert NoDotDot(path);
    NoDotDotFound(path);
    NamesResolve(a, name);
    FileLostDir(path, a);
  }

  lemma FileLostDir(path: string, a: string)
    requires path == "/a.txt\\b.txt" && a == "a.txt" && PathAllowed(path)
    ensures DirPath(path) == Resolve("" + "/" + a)
  {
    LastOfUnique(path, '\\', '/', 6);
    assert path[..6] == "" + "/" + a;
  }

  lemma NamesResolve(a: string, b: string)
    requires NoSlash(a) && NoSlash(b) && |a| > 1 && |b| > 1
    ensures Resolve("" + "/" + a) == [a] && Resolve("" + "/" + b) == [b]
  {
    FirstSlashUnique("", 0);
    FirstSlashUnique(a, |a|);
    FirstSlashUnique(b, |b|);
    ResolveConcat("", a);
    ResolveConcat("", b);
  }
}
