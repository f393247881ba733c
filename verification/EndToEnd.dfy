/** From the client's call to the user's tree: printing, chunks, parsing, decoding and
    handling compose to the abstract operation. */
module EndToEnd {
  import opened Text
  import opened Wire
  import opened Grammar
  import opened FileTree
  import opened Store
  import opened RequestHandler
  import opened HandlerTheorems
  import opened HandlerAnswers
  import opened ClientPaths
  import opened ClientRequest
  import opened Connection

  /** What a client is run with: its credentials, the digest and the table of media types. */
  datatype Client = Client(auth: string, email: string, hash: string -> string, mime: string -> string)

  ghost predicate ClientOk(c: Client) {
    && AllText(c.auth) && AllText(c.email)
    && forall s :: c.mime(s) != "" && AllText(c.mime(s))
  }

  function DigitChar(n: nat): char
    requires n < 10
  {
    "0123456789"[n]
  }

  /** `lexical_cast<string>` of a size. */
  function SizeText(n: nat): string {
    if n < 10 then [DigitChar(n)] else SizeText(n / 10) + [DigitChar(n % 10)]
  }

  /** `s` is a non-empty digit string of value `n`. */
  predicate Reads(s: string, n: nat) { s != "" && AllDigits(s) && Decimal(0, s) == n }

  lemma OneDigitReads(n: nat)
    requires n < 10
    ensures Reads([DigitChar(n)], n)
  {
    assert [DigitChar(n)][..0] == "";
  }

  lemma NextDigitReads(s: string, k: nat, n: nat)
    requires Reads(s, k) && n < 10
    ensures Reads(s + [DigitChar(n)], 10 * k + n)
  {
    var t := s + [DigitChar(n)];
    assert t[..|s|] == s;
    assert Decimal(0, t) == Decimal(0, s) * 10 + DigitValue(DigitChar(n));
  }

  lemma {:induction false} SizeTextReads(n: nat)
    ensures Reads(SizeText(n), n)
  {
    if n < 10 {
      OneDigitReads(n);
    } else {
      SizeTextReads(n / 10);
      NextDigitReads(SizeText(n / 10), n / 10, n % 10);
    }
  }

  // ----- the client's requests -----

  function PostRequest(c: Client, p: Path, content: string): Request
    requires p != []
  {
    Request("127.0.0.1", Join(p), c.auth, c.email, "POST", SizeText(|content|),
            c.mime(NameExtension(Last(p))), content)
  }

  function GetRequest(c: Client, p: Path, content: string): Request
    requires p != []
  {
    Request("127.0.0.1", Join(p), c.auth, c.email, "GET", SizeText(|content|),
            c.mime(NameExtension(Last(p))), c.hash(content))
  }

  function DeleteRequest(c: Client, p: Path): Request {
    Request("127.0.0.1", Join(p), c.auth, c.email, "DELETE", "", "", " ")
  }

  /** The login and reconnect probes. */
  function ProbeRequest(c: Client, name: string): Request {
    Request("127.0.0.1", Join([name]), c.auth, c.email, "POST", "", "", "")
  }

  /** The handler on a client's request, as seen in the user's own tree. */
  lemma HandledInView(env: Env, d: Tree, p: Path, email: string, req: RequestValue)
    requires ClientPath(p) && req.uri == Join(p)
    requires UserOf(env, req) == Some(email) && OpenBase(d, UserBase(env, email))
    ensures var base := UserBase(env, email);
            && SameInView(Handle(env, d, req), base,
                          PerformAt(env.hash, View(d, base), p, Parent(p), NameExtension(Last(p)) != "", req))
            && OnlyBelow(d, Handle(env, d, req).tree, base)
  {
    var t := View(d, UserBase(env, email));
    PathOnServer(env, p);
    PerformInView(env, d, email, Join(p), req);
    DirectoryOfFile(env.hash, t, p, DirPath(Join(p)), NameExtension(Last(p)) != "", req);
    HandleFrame(env, d, req);
  }

  /** The directory made for a file matters for files only. */
  lemma DirectoryOfFile(hash: string -> string, t: Tree, p: Path, dir: Path, asFile: bool, req: RequestValue)
    requires p != [] && (asFile ==> dir == Parent(p))
    ensures PerformAt(hash, t, p, dir, asFile, req) == PerformAt(hash, t, p, Parent(p), asFile, req)
  {
  }

  // ----- end to end -----

  /** The exchange ended with the outcome of `v`, and did `v` to the tree of `email`. */
  predicate HasEffect(env: Env, email: string, s: Served, v: Result) {
    s.Ended? && s.op == EndOp(v.outcome) && View(s.disk, UserBase(env, email)) == v.tree
  }

  lemma ExchangeHandles(env: Env, d: Tree, c: Config, chunks: seq<string>, r: Request)
    requires Fresh(c) && HeadOk(r) && Flatten(chunks) == Print(r)
    ensures Valid(c)
    ensures var h := Handle(env, d, Received(r, Framed(r.content)));
            Exchange(env, d, c, chunks) == Ended(EndOp(h.outcome), h.tree)
  {
    FramedRoundTrip(c, r);
    ExchangeWhole(env, d, c, chunks);
  }

  /** A printed request of a logged-in client, cut into any chunks, works on the client's own
      tree as the operation says, and on nothing else. */
  lemma ExchangeInView(env: Env, d: Tree, c: Config, chunks: seq<string>, r: Request, p: Path, email: string)
    requires Fresh(c) && HeadOk(r) && ClientPath(p) && r.path == Join(p)
    requires Login(env, env.rows, r.auth) == Some(email) && OpenBase(d, UserBase(env, email))
    requires Flatten(chunks) == Print(r)
    ensures Valid(c)
    ensures var s := Exchange(env, d, c, chunks);
            && HasEffect(env, email, s,
                 PerformAt(env.hash, View(d, UserBase(env, email)), p, Parent(p),
                           NameExtension(Last(p)) != "", Received(r, Framed(r.content))))
            && OnlyBelow(d, s.disk, UserBase(env, email))
  {
    ReceivedFrom(env, r, Framed(r.content));
    ExchangeHandles(env, d, c, chunks, r);
    EffectOf(env, d, Exchange(env, d, c, chunks), p, email, Received(r, Framed(r.content)));
  }

  lemma ReceivedAuth(r: Request, content: string)
    ensures |Received(r, content).headers| == 7 && Received(r, content).headers[2].value == r.auth
  {
  }

  lemma ReceivedFrom(env: Env, r: Request, content: string)
    ensures UserOf(env, Received(r, content)) == Login(env, env.rows, r.auth)
  {
    ReceivedAuth(r, content);
  }

  lemma EffectOf(env: Env, d: Tree, s: Served, p: Path, email: string, req: RequestValue)
    requires ClientPath(p) && req.uri == Join(p)
    requires UserOf(env, req) == Some(email) && OpenBase(d, UserBase(env, email))
    requires var h := Handle(env, d, req); s == Ended(EndOp(h.outcome), h.tree)
    ensures HasEffect(env, email, s,
              PerformAt(env.hash, View(d, UserBase(env, email)), p, Parent(p), NameExtension(Last(p)) != "", req))
    ensures OnlyBelow(d, s.disk, UserBase(env, email))
  {
    HandledInView(env, d, p, email, req);
  }

  lemma VerbsAreTokens()
    ensures AllToken("POST") && AllToken("GET") && AllToken("DELETE") && AllText("127.0.0.1")
  {
  }

  lemma DigitsAreText(s: string)
    requires AllDigits(s)
    ensures AllText(s)
  {
  }

  lemma RequestsPrintable(client: Client, p: Path, content: string)
    requires ClientOk(client) && ClientPath(p)
    ensures HeadOk(PostRequest(client, p, content)) && HeadOk(GetRequest(client, p, content))
    ensures HeadOk(DeleteRequest(client, p)) && SizeText(|content|) != ""
  {
    VerbsAreTokens();
    JoinIsText(p);
    SizeTextReads(|content|);
    DigitsAreText(SizeText(|content|));
  }

  /** Put: POST of any content stores the bytes before its first sentinel. */
  lemma PostEndToEnd(env: Env, d: Tree, c: Config, chunks: seq<string>, client: Client, p: Path,
                     content: string, email: string)
    requires Fresh(c) && ClientOk(client) && ClientPath(p)
    requires Login(env, env.rows, client.auth) == Some(email) && OpenBase(d, UserBase(env, email))
    requires Flatten(chunks) == Print(PostRequest(client, p, content))
    ensures Valid(c)
    ensures HasEffect(env, email, Exchange(env, d, c, chunks),
                      Upload(View(d, UserBase(env, email)), p, Framed(content)))
    ensures OnlyBelow(d, Exchange(env, d, c, chunks).disk, UserBase(env, email))
  {
    var r := PostRequest(client, p, content);
    RequestsPrintable(client, p, content);
    ExchangeInView(env, d, c, chunks, r, p, email);
    UploadIsPost(env.hash, View(d, UserBase(env, email)), p, Received(r, Framed(content)));
  }

  lemma UploadIsPost(hash: string -> string, t: Tree, p: Path, req: RequestValue)
    requires p != [] && req.verb == "POST" && |req.headers| == 7 && req.headers[5].value != ""
    ensures PerformAt(hash, t, p, Parent(p), NameExtension(Last(p)) != "", req) == Upload(t, p, req.content)
  {
  }

  /** Compare: GET answers whether the stored content has the digest of the local one. */
  lemma GetEndToEnd(env: Env, d: Tree, c: Config, chunks: seq<string>, client: Client, p: Path,
                    content: string, email: string)
    requires Fresh(c) && ClientOk(client) && ClientPath(p) && client.hash == env.hash
    requires Login(env, env.rows, client.auth) == Some(email) && OpenBase(d, UserBase(env, email))
    requires !Contains(client.hash(content), SENTINEL)
    requires Flatten(chunks) == Print(GetRequest(client, p, content))
    ensures Valid(c)
    ensures var t := View(d, UserBase(env, email));
            HasEffect(env, email, Exchange(env, d, c, chunks), Result(Compare(env.hash, t, p, env.hash(content)), t))
    ensures Exchange(env, d, c, chunks).disk == d
  {
    var r := GetRequest(client, p, content);
    RequestsPrintable(client, p, content);
    FramedSpec(r.content);
    ExchangeInView(env, d, c, chunks, r, p, email);
    GetReads(env, d, c, chunks, r);
  }

  lemma GetReads(env: Env, d: Tree, c: Config, chunks: seq<string>, r: Request)
    requires Fresh(c) && HeadOk(r) && r.verb == "GET" && Flatten(chunks) == Print(r)
    ensures Valid(c) && Exchange(env, d, c, chunks).Ended? && Exchange(env, d, c, chunks).disk == d
  {
    ExchangeHandles(env, d, c, chunks, r);
    ProbesChangeNothing(env, d, Received(r, Framed(r.content)));
  }

  /** Remove: DELETE takes the whole subtree. */
  lemma DeleteEndToEnd(env: Env, d: Tree, c: Config, chunks: seq<string>, client: Client, p: Path, email: string)
    requires Fresh(c) && ClientOk(client) && ClientPath(p)
    requires Login(env, env.rows, client.auth) == Some(email) && OpenBase(d, UserBase(env, email))
    requires Flatten(chunks) == Print(DeleteRequest(client, p))
    ensures Valid(c)
    ensures HasEffect(env, email, Exchange(env, d, c, chunks), Delete(View(d, UserBase(env, email)), p))
    ensures OnlyBelow(d, Exchange(env, d, c, chunks).disk, UserBase(env, email))
  {
    RequestsPrintable(client, p, "");
    ExchangeInView(env, d, c, chunks, DeleteRequest(client, p), p, email);
  }

  /** Login and reconnect probes are answered without touching the disk. */
  lemma ProbeEndToEnd(env: Env, d: Tree, c: Config, chunks: seq<string>, client: Client, name: string)
    requires Fresh(c) && ClientOk(client) && ClientPath([name]) && NameExtension(name) == ""
    requires Flatten(chunks) == Print(ProbeRequest(client, name))
    ensures Valid(c)
    ensures Exchange(env, d, c, chunks) ==
            Ended(Write(Reply(if Login(env, env.rows, client.auth).None? then Unauthorized else Accepted)), d)
  {
    var r := ProbeRequest(client, name);
    ProbePrintable(client, name);
    FramedSpec("");
    ExchangeHandles(env, d, c, chunks, r);
    PathOnServer(env, [name]);
    ProbesChangeNothing(env, d, Received(r, ""));
  }

  lemma WordHasNoDots(name: string)
    requires forall i :: 0 <= i < |name| ==> name[i] != '.'
    ensures NameExtension(name) == "" && NoDotDot(name)
  {
    LastOfSpec(name, '.', '.');
  }

  /** The two probes of the client are such probes. */
  lemma ProbeNames()
    ensures ClientPath(["login"]) && NameExtension("login") == ""
    ensures ClientPath(["reconnect"]) && NameExtension("reconnect") == ""
  {
    PlainWord("login");
    PlainWord("reconnect");
  }

  lemma PlainWord(name: string)
    requires name != "" && forall i :: 0 <= i < |name| ==> 'a' <= name[i] <= 'z'
    ensures ClientPath([name]) && NameExtension(name) == ""
  {
    WordHasNoDots(name);
  }

  lemma ProbePrintable(client: Client, name: string)
    requires ClientOk(client) && ClientPath([name])
    ensures HeadOk(ProbeRequest(client, name)) && Framed("") == ""
  {
    VerbsAreTokens();
    JoinIsText([name]);
  }

  // ----- what the client's requests are, and how they are answered -----

  /** The parser delivers a request with this method, path and body, with the client's credentials. */
  predicate Arrives(client: Client, p: Path, req: RequestValue, verb: string, body: string) {
    && req.verb == verb && req.uri == Join(p) && req.content == body && |req.headers| == 7
    && req.headers[0] == Header("Host", "127.0.0.1") && req.headers[1] == Header("Client", client.email)
    && req.headers[2] == Header("Auth", client.auth)
    && req.headers[5].name == "Content-Length" && req.headers[6].name == "Content-Type"
  }

  lemma RequestArrives(client: Client, p: Path, c: Config, r: Request)
    requires Fresh(c) && HeadOk(r) && r.path == Join(p)
    requires r.server == "127.0.0.1" && r.email == client.email && r.auth == client.auth
    ensures Valid(c)
    ensures var req := Run(c, Print(r)).config.req;
      && Arrives(client, p, req, r.verb, Framed(r.content))
      && req.headers[5].value == r.length && req.headers[6].value == r.contentType
  {
    FramedRoundTrip(c, r);
    HeadersDelivered(c, r);
  }

  /** A POST arrives with the content, its size in digits and its media type. */
  lemma PostArrives(client: Client, c: Config, p: Path, content: string)
    requires Fresh(c) && ClientOk(client) && ClientPath(p)
    ensures Valid(c)
    ensures var req := Run(c, Print(PostRequest(client, p, content))).config.req;
      && Arrives(client, p, req, "POST", Framed(content))
      && Reads(req.headers[5].value, |content|) && req.headers[6].value == client.mime(NameExtension(Last(p)))
  {
    RequestsPrintable(client, p, content);
    SizeTextReads(|content|);
    RequestArrives(client, p, c, PostRequest(client, p, content));
  }

  /** A GET arrives with the digest for a body, and the size and media type of the content. */
  lemma GetArrives(client: Client, c: Config, p: Path, content: string)
    requires Fresh(c) && ClientOk(client) && ClientPath(p)
    ensures Valid(c)
    ensures var req := Run(c, Print(GetRequest(client, p, content))).config.req;
      && Arrives(client, p, req, "GET", Framed(client.hash(content)))
      && Reads(req.headers[5].value, |content|) && req.headers[6].value == client.mime(NameExtension(Last(p)))
  {
    RequestsPrintable(client, p, content);
    SizeTextReads(|content|);
    RequestArrives(client, p, c, GetRequest(client, p, content));
  }

  lemma FramedBlank()
    ensures Framed(" ") == " "
  {
    forall i | 0 <= i <= 1
      ensures !OccursAt(" ", SENTINEL, i)
    {
    }
    FramedSpec(" ");
  }

  /** A DELETE arrives with one blank for a body, and neither size nor media type. */
  lemma DeleteArrives(client: Client, c: Config, p: Path)
    requires Fresh(c) && ClientOk(client) && ClientPath(p)
    ensures Valid(c)
    ensures var req := Run(c, Print(DeleteRequest(client, p))).config.req;
            Arrives(client, p, req, "DELETE", " ") && req.headers[5].value == "" && req.headers[6].value == ""
  {
    RequestsPrintable(client, p, "");
    RequestArrives(client, p, c, DeleteRequest(client, p));
    FramedBlank();
  }

  /** The login and reconnect probes arrive as empty POSTs. */
  lemma ProbeArrives(client: Client, c: Config, name: string)
    requires Fresh(c) && ClientOk(client) && ClientPath([name])
    ensures Valid(c)
    ensures var req := Run(c, Print(ProbeRequest(client, name))).config.req;
            Arrives(client, [name], req, "POST", "") && req.headers[5].value == "" && req.headers[6].value == ""
  {
    ProbePrintable(client, name);
    RequestArrives(client, [name], c, ProbeRequest(client, name));
  }

  /** On the wire a DELETE is answered "accepted" if the path stands in the user's tree, which loses
      it with all below it, and "not found" if not. */
  lemma DeleteAnswered(env: Env, d: Tree, c: Config, chunks: seq<string>, client: Client, p: Path, email: string)
    requires Fresh(c) && ClientOk(client) && ClientPath(p)
    requires Login(env, env.rows, client.auth) == Some(email) && OpenBase(d, UserBase(env, email))
    requires Flatten(chunks) == Print(DeleteRequest(client, p))
    ensures Valid(c)
    ensures var t, e := View(d, UserBase(env, email)), Exchange(env, d, c, chunks);
      && e.Ended? && (e.op == Write(Reply(NotFound)) <==> p !in t) && (e.op == Write(Reply(Accepted)) <==> p in t)
      && View(e.disk, UserBase(env, email)) == if p in t then map q | q in t && !(p <= q) :: t[q] else t
  {
    DeleteEndToEnd(env, d, c, chunks, client, p, email);
  }

  /** On the wire a POST of a file is answered "created", and then the user's tree holds the bytes up to
      the first sentinel, unless a regular file is above it; then there is no reply. */
  lemma PostAnswered(env: Env, d: Tree, c: Config, chunks: seq<string>, client: Client, p: Path,
                     content: string, email: string)
    requires Fresh(c) && ClientOk(client) && ClientPath(p) && Closed(View(d, UserBase(env, email)))
    requires Login(env, env.rows, client.auth) == Some(email) && OpenBase(d, UserBase(env, email))
    requires Flatten(chunks) == Print(PostRequest(client, p, content))
    ensures Valid(c)
    ensures var t, e := View(d, UserBase(env, email)), Exchange(env, d, c, chunks);
            var asFile := NameExtension(Last(p)) != "";
      && e.Ended?
      && (if FileAbove(t, p, if asFile then |p| else |p| + 1)
          then e.op == Broken(Fault) && View(e.disk, UserBase(env, email)) == t
          else
            && e.op == Write(Reply(Created)) && p in View(e.disk, UserBase(env, email))
            && (asFile ==> View(e.disk, UserBase(env, email))[p] == File(Framed(content)))
            && (!asFile ==> View(e.disk, UserBase(env, email))[p] == if p in t then t[p] else Dir))
  {
    var t := View(d, UserBase(env, email));
    PostEndToEnd(env, d, c, chunks, client, p, content, email);
    StoreFileAnswers(t, p, Framed(content));
    MakeDirsAnswers(t, p);
  }

  /** On the wire a GET is answered by what stands in the user's tree and its digest. */
  lemma GetAnswered(env: Env, d: Tree, c: Config, chunks: seq<string>, client: Client, p: Path,
                    content: string, email: string)
    requires Fresh(c) && ClientOk(client) && ClientPath(p) && client.hash == env.hash
    requires Login(env, env.rows, client.auth) == Some(email) && OpenBase(d, UserBase(env, email))
    requires !Contains(client.hash(content), SENTINEL)
    requires Flatten(chunks) == Print(GetRequest(client, p, content))
    ensures Valid(c)
    ensures var t, e := View(d, UserBase(env, email)), Exchange(env, d, c, chunks);
      && e.Ended? && e.disk == d
      && e.op == Write(Reply(if p !in t then NotFound
                             else if env.hash(ContentOf(t[p])) == env.hash(content) then Accepted else NotSync))
  {
    GetEndToEnd(env, d, c, chunks, client, p, content, email);
  }
}
