/** The whole synchronisation on the wire: over every run, the requests as bytes carry the disk of
    the server along with the client's model of it, and the replies are those the model acts on. */
module SyncOnWire {
  import opened Text
  import Wire
  import ClientRequest
  import opened FileTree
  import opened Store
  import opened RequestHandler
  import opened HandlerTheorems
  import opened Connection
  import opened ClientPaths
  import opened EndToEnd
  import opened Sync
  import opened SyncMirror
  import opened SyncHistory

  // ----- one call -----

  /** A server and a client logged in as `email`, with the same digest. */
  ghost predicate Linked(env: Env, client: Client, email: string) {
    ClientOk(client) && client.hash == env.hash && Login(env, env.rows, client.auth) == Some(email)
  }

  /** A call the wire carries unchanged. */
  predicate OnWire(hash: string -> string, call: Call) {
    match call
    case Get(p, content) => ClientPath(p) && !Contains(hash(content), SENTINEL)
    case Put(p, _) => ClientPath(p)
    case Remove(p) => ClientPath(p)
    case Hello(name) => name == "login" || name == "reconnect"
  }

  function RequestOf(client: Client, call: Call): ClientRequest.Request
    requires OnWire(client.hash, call)
  {
    match call
    case Get(p, content) => GetRequest(client, p, content)
    case Put(p, content) => PostRequest(client, p, content)
    case Remove(p) => DeleteRequest(client, p)
    case Hello(name) => ProbeRequest(client, name)
  }

  /** What the model expects as the reply. */
  function Answer(hash: string -> string, t: Tree, call: Call): Outcome {
    match call
    case Get(p, content) => Compare(hash, t, p, hash(content))
    case Put(p, content) => if p == [] then Reply(BadRequest) else Upload(t, p, Framed(content)).outcome
    case Remove(p) => Delete(t, p).outcome
    case Hello(_) => Reply(Accepted)
  }

  /** An exchange does to the user's tree what the call does, answers it, and touches nothing
      else. */
  ghost predicate Carries(env: Env, base: Path, d: Tree, call: Call, e: Served) {
    && e.Ended? && e.op == EndOp(Answer(env.hash, View(d, base), call))
    && View(e.disk, base) == Effect(View(d, base), call)
    && OnlyBelow(d, e.disk, base) && OpenBase(e.disk, base)
  }

  /** The root of a user stays free of regular files. */
  lemma BaseStaysOpen(d: Tree, d': Tree, base: Path)
    requires OpenBase(d, base) && OnlyBelow(d, d', base)
    requires [] in View(d', base) ==> View(d', base)[[]].Dir?
    ensures OpenBase(d', base)
  {
    forall k | 0 <= k <= |base| && base[..k] in d'
      ensures d'[base[..k]].Dir?
    {
      if k == |base| {
        assert base[..k] == base + [];
        assert [] in View(d', base);
      } else {
        assert !(base <= base[..k]);
      }
    }
  }

  lemma TopIsDirectory(d: Tree, base: Path)
    requires OpenBase(d, base)
    ensures [] in View(d, base) ==> View(d, base)[[]].Dir?
  {
    assert base + [] == base == base[..|base|];
  }

  /** No call puts a file at the top of the tree. */
  lemma TopStaysDirectory(t: Tree, call: Call)
    requires [] in t ==> t[[]].Dir?
    ensures [] in Effect(t, call) ==> Effect(t, call)[[]].Dir?
  {
  }

  lemma EffectCarries(env: Env, email: string, d: Tree, call: Call, e: Served)
    requires e.Ended? && OpenBase(d, UserBase(env, email)) && OnlyBelow(d, e.disk, UserBase(env, email))
    requires var t := View(d, UserBase(env, email));
             HasEffect(env, email, e, Result(Answer(env.hash, t, call), Effect(t, call)))
    ensures Carries(env, UserBase(env, email), d, call, e)
  {
    var base := UserBase(env, email);
    TopIsDirectory(d, base);
    TopStaysDirectory(View(d, base), call);
    BaseStaysOpen(d, e.disk, base);
  }

  /** An answer that leaves the disk alone. */
  lemma AnswerCarries(env: Env, base: Path, d: Tree, call: Call, e: Served)
    requires OpenBase(d, base) && (call.Get? || call.Hello?)
    requires e == Ended(EndOp(Answer(env.hash, View(d, base), call)), d)
    ensures Carries(env, base, d, call, e)
  {
  }

  lemma PutResult(hash: string -> string, t: Tree, p: Path, content: string)
    requires p != []
    ensures var call := Put(p, content);
            Upload(t, p, Framed(content)) == Result(Answer(hash, t, call), Effect(t, call))
  {
  }

  lemma RemoveResult(hash: string -> string, t: Tree, p: Path)
    ensures Delete(t, p) == Result(Answer(hash, t, Remove(p)), Effect(t, Remove(p)))
  {
  }

  lemma PutOnWire(env: Env, d: Tree, c: Wire.Config, chunks: seq<string>, client: Client, email: string,
                  p: Path, content: string)
    requires Linked(env, client, email) && OpenBase(d, UserBase(env, email)) && Wire.Fresh(c) && ClientPath(p)
    requires Wire.Flatten(chunks) == ClientRequest.Print(PostRequest(client, p, content))
    ensures Wire.Valid(c) && Carries(env, UserBase(env, email), d, Put(p, content), Exchange(env, d, c, chunks))
  {
    PostEndToEnd(env, d, c, chunks, client, p, content, email);
    PutResult(env.hash, View(d, UserBase(env, email)), p, content);
    EffectCarries(env, email, d, Put(p, content), Exchange(env, d, c, chunks));
  }

  lemma RemoveOnWire(env: Env, d: Tree, c: Wire.Config, chunks: seq<string>, client: Client, email: string, p: Path)
    requires Linked(env, client, email) && OpenBase(d, UserBase(env, email)) && Wire.Fresh(c) && ClientPath(p)
    requires Wire.Flatten(chunks) == ClientRequest.Print(DeleteRequest(client, p))
    ensures Wire.Valid(c) && Carries(env, UserBase(env, email), d, Remove(p), Exchange(env, d, c, chunks))
  {
    DeleteEndToEnd(env, d, c, chunks, client, p, email);
    RemoveResult(env.hash, View(d, UserBase(env, email)), p);
    EffectCarries(env, email, d, Remove(p), Exchange(env, d, c, chunks));
  }

  lemma GetOnWire(env: Env, d: Tree, c: Wire.Config, chunks: seq<string>, client: Client, email: string,
                  p: Path, content: string)
    requires Linked(env, client, email) && OpenBase(d, UserBase(env, email)) && Wire.Fresh(c)
    requires ClientPath(p) && !Contains(env.hash(content), SENTINEL)
    requires Wire.Flatten(chunks) == ClientRequest.Print(GetRequest(client, p, content))
    ensures Wire.Valid(c) && Carries(env, UserBase(env, email), d, Get(p, content), Exchange(env, d, c, chunks))
  {
    GetEndToEnd(env, d, c, chunks, client, p, content, email);
    AnswerCarries(env, UserBase(env, email), d, Get(p, content), Exchange(env, d, c, chunks));
  }

  lemma HelloOnWire(env: Env, d: Tree, c: Wire.Config, chunks: seq<string>, client: Client, email: string,
                    name: string)
    requires Linked(env, client, email) && OpenBase(d, UserBase(env, email)) && Wire.Fresh(c)
    requires ClientPath([name]) && NameExtension(name) == ""
    requires Wire.Flatten(chunks) == ClientRequest.Print(ProbeRequest(client, name))
    ensures Wire.Valid(c) && Carries(env, UserBase(env, email), d, Hello(name), Exchange(env, d, c, chunks))
  {
    ProbeEndToEnd(env, d, c, chunks, client, name);
    AnswerCarries(env, UserBase(env, email), d, Hello(name), Exchange(env, d, c, chunks));
  }

  /** One call, as bytes in any chunks. */
  lemma CallOnWire(env: Env, d: Tree, c: Wire.Config, chunks: seq<string>, client: Client, email: string,
                   call: Call)
    requires Linked(env, client, email) && OpenBase(d, UserBase(env, email)) && Wire.Fresh(c)
    requires OnWire(env.hash, call)
    requires Wire.Flatten(chunks) == ClientRequest.Print(RequestOf(client, call))
    ensures Wire.Valid(c) && Carries(env, UserBase(env, email), d, call, Exchange(env, d, c, chunks))
  {
    match call
    case Put(p, content) => PutOnWire(env, d, c, chunks, client, email, p, content);
    case Remove(p) => RemoveOnWire(env, d, c, chunks, client, email, p);
    case Get(p, content) => GetOnWire(env, d, c, chunks, client, email, p, content);
    case Hello(name) =>
      ProbeName(name);
      HelloOnWire(env, d, c, chunks, client, email, name);
  }

  lemma ProbeName(name: string)
    requires name == "login" || name == "reconnect"
    ensures ClientPath([name]) && NameExtension(name) == ""
  {
    ProbeNames();
  }

  /** The reply to a GET decides the POST as checksync has it. */
  lemma GetDecides(env: Env, d: Tree, c: Wire.Config, chunks: seq<string>, client: Client, email: string,
                   w: World, s: State, p: Path) returns (o: Outcome)
    requires Linked(env, client, email) && OpenBase(d, UserBase(env, email)) && Wire.Fresh(c)
    requires View(d, UserBase(env, email)) == s.server && w.hash == env.hash && Connects(w, s)
    requires p in w.local && ClientPath(p) && !Contains(w.hash(LocalContent(w, p)), SENTINEL)
    requires Wire.Flatten(chunks) == ClientRequest.Print(GetRequest(client, p, LocalContent(w, p)))
    ensures Wire.Valid(c) && Exchange(env, d, c, chunks) == Ended(Write(o), d)
    ensures CheckPath(w, s, p) ==
            if AsksForPost(o) then SyncSend(w, Compared(w, s, p), Put(p, LocalContent(w, p))) else Compared(w, s, p)
  {
    GetEndToEnd(env, d, c, chunks, client, p, LocalContent(w, p), email);
    o := Compare(w.hash, s.server, p, w.hash(LocalContent(w, p)));
    ReplyDecides(w, s, p, o);
  }

  lemma ReplyDecides(w: World, s: State, p: Path, o: Outcome)
    requires p in w.local && Connects(w, s)
    requires o == Compare(w.hash, s.server, p, w.hash(LocalContent(w, p)))
    ensures EndOp(o) == Write(o) && (AsksForPost(o) <==> Stale(w, s, p))
  {
  }

  // ----- a whole history -----

  /** An attempt that connects after the logins; those may be anyone's, and as `ProbeEndToEnd`
      has it they leave the disk alone. */
  predicate Exchanged(e: Entry) { e.Attempt? && e.ok && e.call != Hello("login") }

  /** Each such attempt sends its request, in chunks of any size. */
  ghost predicate Sent(client: Client, log: seq<Entry>, sent: nat -> seq<string>) {
    forall i :: 0 <= i < |log| && Exchanged(log[i]) && OnWire(client.hash, log[i].call) ==>
      Wire.Flatten(sent(i)) == ClientRequest.Print(RequestOf(client, log[i].call))
  }

  /** The server's disk after the exchanges of a history, each on a connection of its own. */
  function DiskAfter(env: Env, d: Tree, c: Wire.Config, log: seq<Entry>, sent: nat -> seq<string>): Tree
    requires Wire.Valid(c)
  {
    if log == [] then d
    else
      var k := |log| - 1;
      var d1 := DiskAfter(env, d, c, log[..k], sent);
      if Exchanged(log[k]) then NextDisk(Exchange(env, d1, c, sent(k)), d1) else d1
  }

  lemma FreshIsValid(c: Wire.Config)
    requires Wire.Fresh(c)
    ensures Wire.Valid(c)
  {
  }

  ghost function WireCalls(hash: string -> string): iset<Call> { iset call | OnWire(hash, call) }

  lemma SentBefore(client: Client, log: seq<Entry>, sent: nat -> seq<string>, k: nat)
    requires Sent(client, log, sent) && LogCalls(WireCalls(client.hash), log) && k <= |log|
    ensures Sent(client, log[..k], sent) && LogCalls(WireCalls(client.hash), log[..k])
  {
    assert forall i :: 0 <= i < k ==> log[..k][i] == log[i];
  }

  /** The user's tree on the disk is the tree the model reads off the same history. */
  lemma {:induction false} DiskFollows(
    env: Env, d: Tree, c: Wire.Config, client: Client, email: string, log: seq<Entry>, sent: nat -> seq<string>)
    requires Linked(env, client, email) && OpenBase(d, UserBase(env, email)) && Wire.Fresh(c)
    requires Sent(client, log, sent) && LogCalls(WireCalls(env.hash), log)
    ensures Wire.Valid(c)
    ensures var base, d' := UserBase(env, email), DiskAfter(env, d, c, log, sent);
            && View(d', base) == TreeAfter(View(d, base), log)
            && OpenBase(d', base) && OnlyBelow(d, d', base)
    decreases |log|
  {
    FreshIsValid(c);
    if log != [] {
      var k, base := |log| - 1, UserBase(env, email);
      SentBefore(client, log, sent, k);
      DiskFollows(env, d, c, client, email, log[..k], sent);
      var d1 := DiskAfter(env, d, c, log[..k], sent);
      if Exchanged(log[k]) {
        CallOnWire(env, d1, c, sent(k), client, email, log[k].call);
        CarriedOn(env, base, d, d1, log[k].call, Exchange(env, d1, c, sent(k)));
      }
    }
  }

  lemma CarriedOn(env: Env, base: Path, d: Tree, d1: Tree, call: Call, e: Served)
    requires Carries(env, base, d1, call, e) && OnlyBelow(d, d1, base)
    ensures NextDisk(e, d1) == e.disk && View(e.disk, base) == Effect(View(d1, base), call)
    ensures OpenBase(e.disk, base) && OnlyBelow(d, e.disk, base)
  {
    OnlyBelowTrans(d, d1, e.disk, base);
  }

  /** And each request of the history is answered as the model expects. */
  lemma RepliesFollow(
    env: Env, d: Tree, c: Wire.Config, client: Client, email: string, log: seq<Entry>, sent: nat -> seq<string>,
    i: nat)
    requires Linked(env, client, email) && OpenBase(d, UserBase(env, email)) && Wire.Fresh(c)
    requires Sent(client, log, sent) && LogCalls(WireCalls(env.hash), log)
    requires i < |log| && Exchanged(log[i])
    ensures Wire.Valid(c)
    ensures var t := TreeAfter(View(d, UserBase(env, email)), log[..i]);
            Exchange(env, DiskAfter(env, d, c, log[..i], sent), c, sent(i)) ==
            Ended(EndOp(Answer(env.hash, t, log[i].call)), DiskAfter(env, d, c, log[..i + 1], sent))
  {
    FreshIsValid(c);
    SentBefore(client, log, sent, i);
    DiskFollows(env, d, c, client, email, log[..i], sent);
    CallOnWire(env, DiskAfter(env, d, c, log[..i], sent), c, sent(i), client, email, log[i].call);
    DiskNext(env, d, c, log, sent, i);
  }

  lemma DiskNext(env: Env, d: Tree, c: Wire.Config, log: seq<Entry>, sent: nat -> seq<string>,
    i: nat)
    requires Wire.Valid(c) && i < |log| && Exchanged(log[i])
    ensures var d1 := DiskAfter(env, d, c, log[..i], sent);
            DiskAfter(env, d, c, log[..i + 1], sent) == NextDisk(Exchange(env, d1, c, sent(i)), d1)
  {
    assert log[..i + 1][..i] == log[..i];
  }

  // ----- every run -----

  /** The paths of a watched tree are ones the wire carries, and so are their digests. */
  ghost predicate WireWorld(w: World) {
    forall p :: p in w.local ==> ClientPath(p) && !Contains(w.hash(LocalContent(w, p)), SENTINEL)
  }

  lemma WireWorldCalls(w: World)
    requires WireWorld(w)
    ensures WatchedCalls(WireCalls(w.hash), w)
  {
  }

  lemma RunOnWireCalls(root: Path, w0: World, server: Tree, logins: nat, steps: seq<Step>)
    requires WorldOk(root, w0.hash, w0) && WireWorld(w0)
    requires RunOk(root, w0.hash, Begin(w0, server, logins), steps)
    requires forall i :: 0 <= i < |steps| && steps[i].TickStep? ==> WireWorld(steps[i].w)
    ensures RunSteps(Begin(w0, server, logins), steps).state in RecordedStates(server, WireCalls(w0.hash))
  {
    var calls := WireCalls(w0.hash);
    WireWorldCalls(w0);
    forall i | 0 <= i < |steps| && steps[i].TickStep?
      ensures WatchedCalls(calls, steps[i].w)
    {
      RunWorld(root, w0.hash, Begin(w0, server, logins), steps, i);
      WireWorldCalls(steps[i].w);
    }
    RunCalls(calls, root, w0.hash, Begin(w0, server, logins), steps);
    ServerIsRecorded(calls, w0, server, logins, steps);
  }

  /** A run of the client against the server: watched trees the wire carries, and the bytes of
      each request that connects. */
  ghost predicate WireRun(env: Env, d: Tree, c: Wire.Config, client: Client, email: string, root: Path,
                          w0: World, logins: nat, steps: seq<Step>, sent: nat -> seq<string>)
  {
    var server := View(d, UserBase(env, email));
    && Linked(env, client, email) && OpenBase(d, UserBase(env, email)) && Wire.Fresh(c)
    && WorldOk(root, env.hash, w0) && WireWorld(w0)
    && RunOk(root, env.hash, Begin(w0, server, logins), steps)
    && (forall i :: 0 <= i < |steps| && steps[i].TickStep? ==> WireWorld(steps[i].w))
    && Sent(client, RunSteps(Begin(w0, server, logins), steps).state.log, sent)
  }

  /** Over every run, with outages anywhere, the client's model of the server is the user's tree
      on the disk, and nothing else on the disk has changed. */
  lemma ModelIsDisk(env: Env, d: Tree, c: Wire.Config, client: Client, email: string, root: Path,
                    w0: World, logins: nat, steps: seq<Step>, sent: nat -> seq<string>)
    requires WireRun(env, d, c, client, email, root, w0, logins, steps, sent)
    ensures Wire.Valid(c)
    ensures var base := UserBase(env, email);
            var s := RunSteps(Begin(w0, View(d, base), logins), steps).state;
            var d' := DiskAfter(env, d, c, s.log, sent);
            View(d', base) == s.server && OnlyBelow(d, d', base)
  {
    var server := View(d, UserBase(env, email));
    RunOnWireCalls(root, w0, server, logins, steps);
    DiskFollows(env, d, c, client, email, RunSteps(Begin(w0, server, logins), steps).state.log, sent);
  }

  /** Over every run, with outages anywhere, each request that connects is answered, on the disk
      that the requests before it have left, as the model expects; a POST is answered "created"
      if the tree was good when the run began. */
  lemma RepliesAreModelled(env: Env, d: Tree, c: Wire.Config, client: Client, email: string, root: Path,
                           w0: World, logins: nat, steps: seq<Step>, sent: nat -> seq<string>, i: nat)
    requires WireRun(env, d, c, client, email, root, w0, logins, steps, sent)
    requires var log := RunSteps(Begin(w0, View(d, UserBase(env, email)), logins), steps).state.log;
             i < |log| && Exchanged(log[i])
    ensures Wire.Valid(c)
    ensures var base := UserBase(env, email);
            var log := RunSteps(Begin(w0, View(d, base), logins), steps).state.log;
            var d1 := DiskAfter(env, d, c, log[..i], sent);
            && Exchange(env, d1, c, sent(i)) ==
               Ended(EndOp(Answer(env.hash, View(d1, base), log[i].call)), DiskAfter(env, d, c, log[..i + 1], sent))
            && (GoodServer(root, View(d, base)) && log[i].call.Put? ==>
                  Exchange(env, d1, c, sent(i)).op == Write(Reply(Created)))
  {
    var server := View(d, UserBase(env, email));
    var log := RunSteps(Begin(w0, server, logins), steps).state.log;
    RunOnWireCalls(root, w0, server, logins, steps);
    RepliesFollow(env, d, c, client, email, log, sent, i);
    SentBefore(client, log, sent, i);
    DiskFollows(env, d, c, client, email, log[..i], sent);
    if GoodServer(root, server) {
      ServerStaysGood(root, w0, server, logins, steps);
    }
  }

  /** What the project is for: over every run in which no checksync leaves anything undone and no
      probe meets a window that matters, whenever the counter is at least two the disk of the
      server holds, below the root, the watched tree with every content cut at its first
      sentinel. */
  lemma DiskMirrors(env: Env, d: Tree, c: Wire.Config, client: Client, email: string, root: Path,
                    w0: World, logins: nat, steps: seq<Step>, sent: nat -> seq<string>)
    requires WireRun(env, d, c, client, email, root, w0, logins, steps, sent)
    requires var server := View(d, UserBase(env, email));
             && GoodServer(root, server) && Clean(server)
             && forall q :: q in server && root < q ==> q in w0.local
    requires Injective(env.hash)
    requires var start := Begin(w0, View(d, UserBase(env, email)), logins);
             && BeginHarmless(w0, View(d, UserBase(env, email)), logins) && RunHarmless(root, iset{}, start, steps)
             && RunSteps(start, steps).state.connection >= 2
    ensures Wire.Valid(c)
    ensures var base := UserBase(env, email);
            var sys := RunSteps(Begin(w0, View(d, base), logins), steps);
            var disk := View(DiskAfter(env, d, c, sys.state.log, sent), base);
            && Below(root, disk) == StoredTree(sys.seen)
            && (Below(root, disk) == NodesOf(sys.seen) <==> NoSentinels(sys.seen))
  {
    var server := View(d, UserBase(env, email));
    var sys := RunSteps(Begin(w0, server, logins), steps);
    ModelIsDisk(env, d, c, client, email, root, w0, logins, steps, sent);
    HarmlessRunMirrors(root, w0, server, logins, steps);
    MirrorIsLocalTree(root, env.hash, sys.seen, sys.state);
  }
}
