/** File paths and the directory tree they name. */
module FileTree {
  import opened Text

  type Path = seq<string>

  datatype Node = Dir | File(content: string)

  type Tree = map<Path, Node>

  // ----- path strings -----

  function FirstSlash(s: string): (r: nat)
    ensures r <= |s|
  {
    if s == "" || s[0] == '/' then 0 else 1 + FirstSlash(s[1..])
  }

  lemma {:induction false} FirstSlashSpec(s: string)
    ensures FirstSlash(s) < |s| ==> s[FirstSlash(s)] == '/'
    ensures forall i :: 0 <= i < FirstSlash(s) ==> s[i] != '/'
    decreases |s|
  {
    if s != "" && s[0] != '/' {
      FirstSlashSpec(s[1..]);
      assert forall i :: 0 < i < |s| ==> s[i] == s[1..][i - 1];
    }
  }

  lemma FirstSlashUnique(s: string, k: nat)
    requires k <= |s| && (k < |s| ==> s[k] == '/')
    requires forall i :: 0 <= i < k ==> s[i] != '/'
    ensures FirstSlash(s) == k
  {
    FirstSlashSpec(s);
    assert !(FirstSlash(s) < k) && !(FirstSlash(s) > k);
  }

  function Component(s: string): Path { if s == "" || s == "." then [] else [s] }

  /** The components a path string resolves to: empty ones and "." name nothing. */
  function Resolve(s: string): Path
    decreases |s|
  {
    var i := FirstSlash(s);
    if i == |s| then Component(s) else Component(s[..i]) + Resolve(s[i + 1..])
  }

  /** One step of the resolution, at the first slash. */
  lemma ResolveStep(a: string, b: string)
    requires forall i :: 0 <= i < |a| ==> a[i] != '/'
    ensures Resolve(a + "/" + b) == Component(a) + Resolve(b)
  {
    var s := a + "/" + b;
    FirstSlashUnique(s, |a|);
    assert s[..|a|] == a && s[|a| + 1..] == b;
  }

  lemma {:induction false} ResolveConcat(a: string, b: string)
    ensures Resolve(a + "/" + b) == Resolve(a) + Resolve(b)
    decreases |a|
  {
    var i := FirstSlash(a);
    FirstSlashSpec(a);
    if i == |a| {
      ResolveStep(a, b);
    } else {
      SplitAtSlash(a, i);
      ResolveConcat(a[i + 1..], b);
      ResolveGrouped(a[..i], a[i + 1..], b);
    }
  }

  lemma SplitAtSlash(a: string, i: nat)
    requires i < |a| && a[i] == '/'
    ensures a == a[..i] + "/" + a[i + 1..]
  {
  }

  lemma Regroup(first: string, rest: string, b: string)
    ensures first + "/" + rest + "/" + b == first + "/" + (rest + "/" + b)
  {
  }

  lemma ResolveGrouped(first: string, rest: string, b: string)
    requires forall i :: 0 <= i < |first| ==> first[i] != '/'
    requires Resolve(rest + "/" + b) == Resolve(rest) + Resolve(b)
    ensures Resolve(first + "/" + rest + "/" + b) == Resolve(first + "/" + rest) + Resolve(b)
  {
    Regroup(first, rest, b);
    ResolveStep(first, rest);
    ResolveStep(first, rest + "/" + b);
    PathsRegroup(Component(first), Resolve(rest), Resolve(b));
  }

  lemma PathsRegroup(a: Path, b: Path, c: Path)
    ensures a + b + c == a + (b + c)
  {
  }

  /** The part of a name after its last dot. */
  function NameExtension(name: string): string {
    var dot := LastOf(name, '.', '.');
    if dot == -1 then "" else name[dot + 1..]
  }

  /** The extension both client and server compute on a path string. */
  function Extension(path: string): string {
    var slash := LastOf(path, '/', '/');
    var dot := LastOf(path, '.', '.');
    if dot != -1 && slash != -1 && dot > slash then path[dot + 1..] else ""
  }

  /** The canonical string of a path. */
  function Join(p: Path): string {
    if p == [] then "" else Join(p[..|p| - 1]) + "/" + p[|p| - 1]
  }

  predicate NoSlash(s: string) { forall i :: 0 <= i < |s| ==> s[i] != '/' }

  predicate NoDotDot(s: string) { forall i :: 0 < i < |s| ==> s[i] != '.' || s[i - 1] != '.' }

  /** A name a path string can hold as it is. */
  predicate Plain(name: string) { name != "" && name != "." && NoDotDot(name) && NoSlash(name) }

  predicate AllPlain(p: Path) { forall i :: 0 <= i < |p| ==> Plain(p[i]) }

  lemma PlainResolves(name: string)
    requires Plain(name)
    ensures Resolve(name) == [name]
  {
    FirstSlashUnique(name, |name|);
  }

  lemma {:induction false} JoinResolves(p: Path)
    requires AllPlain(p)
    ensures Resolve(Join(p)) == p
    decreases |p|
  {
    if p == [] {
      assert FirstSlash("") == 0;
    } else {
      var k := |p| - 1;
      JoinResolves(p[..k]);
      ResolveConcat(Join(p[..k]), p[k]);
      PlainResolves(p[k]);
    }
  }

  lemma JoinStart(p: Path)
    requires p != []
    ensures Join(p) != "" && Join(p)[0] == '/'
    decreases |p|
  {
    if |p| > 1 {
      JoinStart(p[..|p| - 1]);
    }
  }

  lemma NoDotDotFound(s: string)
    ensures NoDotDot(s) <==> !Contains(s, "..")
  {
    if NoDotDot(s) {
      forall i | 0 <= i <= |s|
        ensures !OccursAt(s, "..", i)
      {
        if i + 2 <= |s| {
          assert s[i..i + 2] == [s[i], s[i + 1]];
          assert s[i + 1] != '.' || s[i] != '.';
        }
      }
    } else {
      var i :| 0 < i < |s| && !(s[i] != '.' || s[i - 1] != '.');
      assert s[i - 1..i - 1 + 2] == [s[i - 1], s[i]];
      assert OccursAt(s, "..", i - 1);
    }
  }

  lemma {:induction false} JoinHasNoDotDot(p: Path)
    requires AllPlain(p)
    ensures NoDotDot(Join(p))
    decreases |p|
  {
    if p != [] {
      var k := |p| - 1;
      var a, b := Join(p[..k]), p[k];
      JoinHasNoDotDot(p[..k]);
      var s := a + "/" + b;
      forall i | 0 < i < |s|
        ensures s[i] != '.' || s[i - 1] != '.'
      {
        if i < |a| {
          assert s[i] == a[i] && s[i - 1] == a[i - 1];
        } else if i > |a| + 1 {
          assert s[i] == b[i - |a| - 1] && s[i - 1] == b[i - |a| - 2];
        }
      }
    }
  }

  lemma SlashBeforeName(a: string, name: string)
    requires NoSlash(name)
    ensures LastOf(a + "/" + name, '/', '/') == |a|
  {
    LastOfUnique("/" + name, '/', '/', 0);
    LastOfConcat(a, "/" + name, '/', '/');
    assert a + "/" + name == a + ("/" + name);
  }

  lemma NoDotInName(a: string, name: string)
    requires LastOf(name, '.', '.') == -1
    ensures LastOf(a + "/" + name, '.', '.') < |a|
  {
    var s := a + "/" + name;
    LastOfSpec(s, '.', '.');
    LastOfSpec(name, '.', '.');
    assert forall i :: |a| < i < |s| ==> s[i] == name[i - |a| - 1];
  }

  lemma ExtensionOfLast(a: string, name: string)
    requires NoSlash(name)
    ensures Extension(a + "/" + name) == NameExtension(name)
  {
    SlashBeforeName(a, name);
    var dot := LastOf(name, '.', '.');
    if dot == -1 {
      NoDotInName(a, name);
    } else {
      LastOfConcat(a + "/", name, '.', '.');
      assert (a + "/" + name)[|a| + 1 + dot + 1..] == name[dot + 1..];
    }
  }

  lemma JoinExtension(p: Path)
    requires p != [] && AllPlain(p)
    ensures Extension(Join(p)) == NameExtension(p[|p| - 1])
  {
    ExtensionOfLast(Join(p[..|p| - 1]), p[|p| - 1]);
  }

  lemma LastNameResolves(path: string)
    requires Extension(path) != ""
    ensures var slash := LastOf(path, '/', '/');
            && path == path[..slash] + "/" + path[slash + 1..]
            && NoSlash(path[slash + 1..])
            && Resolve(path) == Resolve(path[..slash]) + [path[slash + 1..]]
  {
    LastOfSpec(path, '/', '/');
    LastOfSpec(path, '.', '.');
    var slash := LastOf(path, '/', '/');
    var a, name := path[..slash], path[slash + 1..];
    assert path == a + "/" + name;
    FirstSlashUnique(name, |name|);
    assert |name| >= 2;
    ResolveConcat(a, name);
  }

  /** A path string whose extension is not empty resolves to a path whose last name has
      that extension. */
  lemma ExtensionNamesFile(path: string)
    requires Extension(path) != ""
    ensures Resolve(path) != []
    ensures NameExtension(Resolve(path)[|Resolve(path)| - 1]) == Extension(path)
  {
    LastNameResolves(path);
    ExtensionOfLast(path[..LastOf(path, '/', '/')], path[LastOf(path, '/', '/') + 1..]);
  }

  // ----- the rules in plain terms -----

  /** Text without a slash names nothing if it is empty or one dot, and else itself. */
  lemma NameResolves(s: string)
    requires '/' !in s
    ensures Resolve(s) == if s == "" || s == "." then [] else [s]
  {
    FirstSlashUnique(s, |s|);
  }

  /** The extension of a name is what follows its last dot, and empty without a dot; a path string
      with a slash has that of what follows its last slash, and one without has none. */
  lemma ExtensionText(a: string, stem: string, ext: string)
    requires '.' !in ext && '/' !in stem && '/' !in ext
    ensures NameExtension(stem + "." + ext) == ext && NameExtension(ext) == ""
    ensures Extension(a + "/" + stem + "." + ext) == ext && Extension(a + "/" + ext) == ""
    ensures Extension(stem + "." + ext) == ""
  {
    NoDotNoExtension(ext);
    DotBeforeExtension(stem, ext);
    ExtensionOfLast(a, ext);
    ExtensionOfLast(a, stem + "." + ext);
    assert a + "/" + stem + "." + ext == a + "/" + (stem + "." + ext);
    LastOfSpec(stem + "." + ext, '/', '/');
  }

  lemma NoDotNoExtension(name: string)
    requires '.' !in name
    ensures NameExtension(name) == ""
  {
    LastOfSpec(name, '.', '.');
  }

  lemma DotBeforeExtension(stem: string, ext: string)
    requires '.' !in ext
    ensures NameExtension(stem + "." + ext) == ext
  {
    var s := stem + "." + ext;
    assert s[|stem|] == '.' && forall i :: |stem| < i < |s| ==> s[i] == ext[i - |stem| - 1];
    LastOfUnique(s, '.', '.', |stem|);
    assert s[|stem| + 1..] == ext;
  }

  // ----- tree operations -----

  /** Reading a directory yields no bytes. */
  function ContentOf(n: Node): string { if n.Dir? then "" else n.content }

  function RemoveAll(t: Tree, p: Path): Tree {
    map q | q in t && !(p <= q) :: t[q]
  }

  /** Some path from the root to `p` is a regular file. */
  predicate Blocked(t: Tree, p: Path) {
    exists k :: 0 <= k <= |p| && p[..k] in t && t[p[..k]].File?
  }

  function Ancestry(p: Path): (r: set<Path>)
    ensures forall q :: q in r <==> q <= p
  {
    var r := set k | 0 <= k <= |p| :: p[..k];
    assert forall q :: q <= p ==> q in r by {
      forall q: Path | q <= p
        ensures q in r
      {
        assert q == p[..|q|];
      }
    }
    r
  }

  /** `create_directories`, when nothing blocks it. */
  function AddDirs(t: Tree, p: Path): (r: Tree)
    ensures forall q :: q in r <==> q <= p || q in t
    ensures forall q :: q in r ==> r[q] == if q in t then t[q] else Dir
  {
    (map q | q in Ancestry(p) :: Dir) + t
  }

  /** A file can be opened for writing: its directory is there and it is no directory. */
  predicate CanWrite(t: Tree, p: Path) {
    && p != [] && p[..|p| - 1] in t && t[p[..|p| - 1]].Dir?
    && (p in t ==> t[p].File?)
  }

  /** Every path hangs in a directory. */
  predicate Closed(t: Tree) { forall p {:trigger Hangs(t, p)} :: p in t ==> Hangs(t, p) }

  predicate Hangs(t: Tree, p: Path) { p != [] ==> p[..|p| - 1] in t && t[p[..|p| - 1]].Dir? }

  /** Regular files stand only at names with an extension. */
  predicate FilesNamed(t: Tree) {
    forall p :: p in t && t[p].File? ==> p != [] && NameExtension(p[|p| - 1]) != ""
  }

  lemma {:induction false} ClosedPrefix(t: Tree, p: Path, k: nat)
    requires Closed(t) && p in t && k < |p|
    ensures p[..k] in t && t[p[..k]].Dir?
    decreases |p| - k
  {
    var parent := p[..|p| - 1];
    assert Hangs(t, p);
    if k < |p| - 1 {
      ClosedPrefix(t, parent, k);
      assert parent[..k] == p[..k];
    }
  }

  lemma RemoveKeepsClosed(t: Tree, p: Path)
    requires Closed(t)
    ensures Closed(RemoveAll(t, p))
  {
    forall q | q in RemoveAll(t, p)
      ensures Hangs(RemoveAll(t, p), q)
    {
      assert Hangs(t, q);
      assert q != [] ==> q[..|q| - 1] <= q;
    }
  }

  lemma AddDirsKeepsClosed(t: Tree, p: Path)
    requires Closed(t) && !Blocked(t, p)
    ensures Closed(AddDirs(t, p))
  {
    var t' := AddDirs(t, p);
    forall q | q in t'
      ensures Hangs(t', q)
    {
      assert q in t ==> Hangs(t, q);
      if q <= p && q != [] {
        assert q[..|q| - 1] == p[..|q| - 1];
      }
    }
  }

  lemma WriteKeepsClosed(t: Tree, p: Path, content: string)
    requires Closed(t) && CanWrite(t, p)
    ensures Closed(t[p := File(content)])
  {
    var r := t[p := File(content)];
    forall q | q in r
      ensures Hangs(r, q)
    {
      assert q in t ==> Hangs(t, q);
    }
  }

  lemma RemoveKeepsNames(t: Tree, p: Path)
    requires FilesNamed(t)
    ensures FilesNamed(RemoveAll(t, p))
  {
  }

  lemma AddDirsKeepsNames(t: Tree, p: Path)
    requires FilesNamed(t)
    ensures FilesNamed(AddDirs(t, p))
  {
  }

  lemma WriteKeepsNames(t: Tree, p: Path, content: string)
    requires FilesNamed(t) && p != [] && NameExtension(p[|p| - 1]) != ""
    ensures FilesNamed(t[p := File(content)])
  {
  }

  // ----- a subtree seen on its own -----

  /** The subtree at `base`, with paths relative to it. */
  function View(t: Tree, base: Path): (v: Tree)
    ensures forall r :: r in v <==> base + r in t
    ensures forall r :: r in v ==> v[r] == t[base + r]
  {
    var rs := set q | q in t && base <= q :: q[|base|..];
    assert forall q :: q in t && base <= q ==> base + q[|base|..] == q;
    assert forall r :: base + r in t ==> base <= base + r && (base + r)[|base|..] == r && r in rs;
    map r | r in rs :: t[base + r]
  }

  lemma UnderBase(base: Path, p: Path, r: Path)
    ensures base + p <= base + r <==> p <= r
  {
    if base + p <= base + r {
      assert p == (base + p)[|base|..] && r == (base + r)[|base|..];
      assert p == r[..|p|] by {
        assert (base + r)[..|base + p|] == base + p;
        assert (base + r)[..|base + p|][|base|..] == r[..|p|];
      }
    }
    if p <= r {
      assert base + r == base + p + r[|p|..];
    }
  }

  lemma ViewRemove(t: Tree, base: Path, p: Path)
    ensures View(RemoveAll(t, base + p), base) == RemoveAll(View(t, base), p)
  {
    forall r
      ensures base + p <= base + r <==> p <= r
    {
      UnderBase(base, p, r);
    }
  }

  lemma ViewAddDirs(t: Tree, base: Path, p: Path)
    ensures View(AddDirs(t, base + p), base) == AddDirs(View(t, base), p)
  {
    var v, w := View(AddDirs(t, base + p), base), AddDirs(View(t, base), p);
    forall r
      ensures r in v <==> r in w
      ensures r in v ==> v[r] == w[r]
    {
      ViewAddDirsAt(t, base, p, r);
    }
    assert v == w;
  }

  lemma ViewAddDirsAt(t: Tree, base: Path, p: Path, r: Path)
    ensures var v, w := View(AddDirs(t, base + p), base), AddDirs(View(t, base), p);
            (r in v <==> r in w) && (r in v ==> v[r] == w[r])
  {
    UnderBase(base, r, p);
    var t' := AddDirs(t, base + p);
    assert r in View(t', base) <==> base + r in t';
    assert r in View(t, base) <==> base + r in t;
    assert base + r in t' <==> base + r <= base + p || base + r in t;
  }

  lemma ViewWrite(t: Tree, base: Path, p: Path, n: Node)
    ensures View(t[base + p := n], base) == View(t, base)[p := n]
  {
    assert forall r :: base + r == base + p ==> (base + r)[|base|..] == r && (base + p)[|base|..] == p;
  }

  /** No regular file stands at or above `base`. */
  predicate OpenBase(t: Tree, base: Path) { !Blocked(t, base) }

  lemma ViewBlocked(t: Tree, base: Path, p: Path)
    requires OpenBase(t, base)
    ensures Blocked(t, base + p) <==> Blocked(View(t, base), p)
  {
    var q := base + p;
    assert forall k :: 0 <= k <= |base| ==> q[..k] == base[..k];
    if Blocked(t, q) {
      var k :| 0 <= k <= |q| && q[..k] in t && t[q[..k]].File?;
      assert k > |base| ==> q[..k] == base + p[..k - |base|];
    }
    if Blocked(View(t, base), p) {
      var k :| 0 <= k <= |p| && p[..k] in View(t, base) && View(t, base)[p[..k]].File?;
      assert q[..|base| + k] == base + p[..k];
    }
  }
}
