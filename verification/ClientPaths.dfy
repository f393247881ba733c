/** Which paths of the client work at their own place on the server. */
module ClientPaths {
  import opened Text
  import opened Grammar
  import opened FileTree
  import opened Store
  import opened RequestHandler
  import opened HandlerTheorems

  /** A file of this name is stored in its own directory: the name holds no backslash, or nothing
      that names a directory before the last one. */
  predicate InParent(name: string) {
    var k := LastOf(name, '\\', '\\');
    k == -1 || Component(name[..k]) == []
  }

  /** A path that the wire and the decoder leave alone and that resolves to itself. */
  predicate ClientPath(p: Path) {
    && p != [] && AllPlain(p)
    && (forall i :: 0 <= i < |p| ==> AllText(p[i]) && Unescaped(p[i]))
    && (NameExtension(Last(p)) != "" ==> InParent(Last(p)))
  }

  /** The printed path is one the handler works on, it is decoded to a text that resolves to `p`,
      and a file is put into its own directory. */
  predicate InPlace(env: Env, p: Path) {
    var path := UrlDecode(env.hexPair, Join(p));
    && p != [] && path.Some? && PathAllowed(path.value) && Resolve(path.value) == p
    && (Extension(path.value) != "" ==> DirPath(path.value) == Parent(p))
  }

  // ----- such a path stays in place -----

  lemma {:induction false} JoinIsText(p: Path)
    ensures AllText(Join(p)) <==> forall i :: 0 <= i < |p| ==> AllText(p[i])
    ensures Unescaped(Join(p)) <==> forall i :: 0 <= i < |p| ==> Unescaped(p[i])
    decreases |p|
  {
    if p != [] {
      var k := |p| - 1;
      JoinIsText(p[..k]);
      JoinedText(Join(p[..k]), p[k]);
      assert forall i :: 0 <= i < k ==> p[..k][i] == p[i];
    }
  }

  lemma JoinedText(a: string, b: string)
    ensures AllText(a + "/" + b) <==> AllText(a) && AllText(b)
    ensures Unescaped(a + "/" + b) <==> Unescaped(a) && Unescaped(b)
  {
    var s := a + "/" + b;
    assert s[|a|] == '/';
    assert forall i :: 0 <= i < |a| ==> s[i] == a[i];
    assert forall i :: 0 <= i < |b| ==> b[i] == s[|a| + 1 + i];
  }

  /** The directory made for a file of a canonical path. */
  lemma DirOfJoin(p: Path)
    requires p != [] && AllPlain(p) && PathAllowed(Join(p))
    ensures DirPath(Join(p)) == Parent(p) <==> InParent(Last(p))
  {
    var a, name := Join(Parent(p)), Last(p);
    var k := LastOf(name, '\\', '\\');
    JoinResolves(Parent(p));
    SeparatorOfJoin(a, name);
    TextBeforeSeparator(a, name, k);
    if k != -1 {
      assert Parent(p) + Component(name[..k]) == Parent(p) <==> Component(name[..k]) == [];
    }
  }

  lemma TextBeforeSeparator(a: string, name: string, k: int)
    requires NoSlash(name) && -1 <= k < |name|
    ensures var before := (a + "/" + name)[..|a| + 1 + k];
            Resolve(before) == if k == -1 then Resolve(a) else Resolve(a) + Component(name[..k])
  {
    var s := a + "/" + name;
    if k == -1 {
      assert s[..|a|] == a;
    } else {
      assert s[..|a| + 1 + k] == a + "/" + name[..k];
      ResolveConcat(a, name[..k]);
      FirstSlashUnique(name[..k], k);
    }
  }

  lemma SeparatorOfJoin(a: string, name: string)
    requires NoSlash(name)
    ensures LastOf(a + "/" + name, '\\', '/') == |a| + 1 + LastOf(name, '\\', '\\')
  {
    LastOfSpec(name, '\\', '\\');
    SeparatorOfName(name, LastOf(name, '\\', '\\'));
    LastOfConcat(a, "/" + name, '\\', '/');
    assert a + "/" + name == a + ("/" + name);
  }

  lemma SeparatorOfName(name: string, k: int)
    requires NoSlash(name) && -1 <= k < |name| && (k >= 0 ==> name[k] == '\\')
    requires forall i :: k < i < |name| ==> name[i] != '\\'
    ensures LastOf("/" + name, '\\', '/') == 1 + k
  {
    LastOfUnique("/" + name, '\\', '/', 1 + k);
  }

  lemma PathOnServer(env: Env, p: Path)
    requires ClientPath(p)
    ensures UrlDecode(env.hexPair, Join(p)) == Some(Join(p)) && AllText(Join(p))
    ensures PathAllowed(Join(p)) && Resolve(Join(p)) == p
    ensures Extension(Join(p)) == NameExtension(Last(p))
    ensures NameExtension(Last(p)) != "" ==> DirPath(Join(p)) == Parent(p)
  {
    JoinIsText(p);
    DecodeIdentity(env.hexPair, Join(p));
    JoinStart(p);
    JoinHasNoDotDot(p);
    NoDotDotFound(Join(p));
    JoinResolves(p);
    JoinExtension(p);
    DirOfJoin(p);
  }

  // ----- no other path does -----

  lemma {:induction false} JoinConcat(a: Path, b: Path)
    ensures Join(a + b) == Join(a) + Join(b)
    decreases |b|
  {
    if b == [] {
      assert a + b == a;
    } else {
      var k := |b| - 1;
      assert (a + b)[..|a + b| - 1] == a + b[..k];
      JoinConcat(a, b[..k]);
      assert Join(a) + Join(b[..k]) + "/" + b[k] == Join(a) + (Join(b[..k]) + "/" + b[k]);
    }
  }

  lemma JoinComponent(s: string)
    ensures Fits(Component(s), s)
  {
    assert [s][..0] == [];
  }

  /** The canonical text of `p` is no longer than `s` with a slash before it, and if it is as long it
      is that. */
  predicate Fits(p: Path, s: string) { |Join(p)| <= |s| + 1 && (|Join(p)| == |s| + 1 ==> Join(p) == "/" + s) }

  lemma FitTogether(p: Path, a: string, q: Path, b: string)
    requires Fits(p, a) && Fits(q, b)
    ensures Fits(p + q, a + "/" + b)
  {
    JoinConcat(p, q);
    assert "/" + (a + "/" + b) == "/" + a + ("/" + b);
  }

  /** A text names no more than it has room for. */
  lemma {:induction false} ResolveFits(s: string)
    ensures Fits(Resolve(s), s)
    decreases |s|
  {
    var i := FirstSlash(s);
    if i == |s| {
      JoinComponent(s);
    } else {
      FirstSlashSpec(s);
      JoinComponent(s[..i]);
      ResolveFits(s[i + 1..]);
      FitTogether(Component(s[..i]), s[..i], Resolve(s[i + 1..]), s[i + 1..]);
      assert s == s[..i] + "/" + s[i + 1..];
    }
  }

  lemma {:induction false} ResolvedNames(s: string)
    ensures forall i :: 0 <= i < |Resolve(s)| ==>
              Resolve(s)[i] != "" && Resolve(s)[i] != "." && NoSlash(Resolve(s)[i])
    decreases |s|
  {
    var i := FirstSlash(s);
    FirstSlashSpec(s);
    if i < |s| {
      ResolvedNames(s[i + 1..]);
    }
  }

  lemma AbsoluteResolves(u: string)
    ensures Resolve("/" + u) == Resolve(u)
  {
    assert "/" + u == "" + "/" + u;
    FirstSlashUnique("", 0);
    ResolveConcat("", u);
  }

  /** An absolute text no longer than the canonical one of the path it resolves to is that one. */
  lemma ShortestIsCanonical(v: string, p: Path)
    requires v != "" && v[0] == '/' && Resolve(v) == p && |v| <= |Join(p)|
    ensures v == Join(p)
  {
    var u := v[1..];
    assert v == "/" + u;
    AbsoluteResolves(u);
    ResolveFits(u);
  }

  lemma {:induction false} NamesHaveNoDotDot(p: Path)
    requires NoDotDot(Join(p))
    ensures forall i :: 0 <= i < |p| ==> NoDotDot(p[i])
    decreases |p|
  {
    if p != [] {
      var k := |p| - 1;
      var a, s := Join(p[..k]), Join(p);
      assert forall i :: 0 <= i < |a| ==> s[i] == a[i];
      assert forall i :: 0 <= i < |p[k]| ==> p[k][i] == s[|a| + 1 + i];
      NamesHaveNoDotDot(p[..k]);
      assert forall i :: 0 <= i < k ==> p[..k][i] == p[i];
    }
  }

  /** A path that works in its place is decoded to itself. */
  lemma InPlaceDecodes(env: Env, p: Path)
    requires InPlace(env, p)
    ensures UrlDecode(env.hexPair, Join(p)) == Some(Join(p)) && AllPlain(p)
  {
    var v := UrlDecode(env.hexPair, Join(p)).value;
    DecodeLength(env.hexPair, Join(p));
    ShortestIsCanonical(v, p);
    ResolvedNames(v);
    NoDotDotFound(v);
    NamesHaveNoDotDot(p);
  }

  /** Exactly when a path of the client reaches its own place: the bytes of its text pass the parser
      unchanged, and the handler decodes and resolves them to that path. */
  lemma ReachesItsPlace(env: Env, p: Path)
    ensures AllText(Join(p)) && InPlace(env, p) <==> ClientPath(p)
  {
    if ClientPath(p) {
      PathOnServer(env, p);
    }
    if AllText(Join(p)) && InPlace(env, p) {
      InPlaceDecodes(env, p);
      JoinIsText(p);
      DecodeIdentity(env.hexPair, Join(p));
      JoinExtension(p);
      DirOfJoin(p);
    }
  }
}
