/** Several users on one disk: their requests interleave as bytes, and each user's tree is what that
    user's own requests have made of it. */
module SyncUsers {
  import Wire
  import ClientRequest
  import opened FileTree
  import opened Store
  import opened RequestHandler
  import opened HandlerTheorems
  import opened Connection
  import opened EndToEnd
  import opened Sync
  import opened SyncMirror
  import opened SyncHistory
  import opened SyncOnWire

  /** A request of the user `email` that connects, as bytes in chunks of any size. */
  datatype Act = Act(email: string, call: Call, chunks: seq<string>)

  /** The users, each with a client of its own; their emails name directories. */
  ghost predicate Users(env: Env, d: Tree, clients: map<string, Client>) {
    forall u :: u in clients ==> Plain(u) && Linked(env, clients[u], u) && OpenBase(d, UserBase(env, u))
  }

  /** Each act sends what its call prints. */
  ghost predicate Acts(env: Env, clients: map<string, Client>, acts: seq<Act>) {
    forall i :: 0 <= i < |acts| ==> ActOk(env, clients, acts[i])
  }

  ghost predicate ActOk(env: Env, clients: map<string, Client>, a: Act) {
    && a.email in clients && clients[a.email].hash == env.hash && OnWire(env.hash, a.call)
    && Wire.Flatten(a.chunks) == ClientRequest.Print(RequestOf(clients[a.email], a.call))
  }

  /** The disk after the acts, each on a connection of its own. */
  function DiskOf(env: Env, d: Tree, c: Wire.Config, acts: seq<Act>): Tree
    requires Wire.Valid(c)
  {
    if acts == [] then d
    else
      var d1 := DiskOf(env, d, c, acts[..|acts| - 1]);
      NextDisk(Exchange(env, d1, c, acts[|acts| - 1].chunks), d1)
  }

  /** What one user asked for, in order. */
  function CallsOf(acts: seq<Act>, u: string): seq<Call> {
    if acts == [] then []
    else
      var before, a := CallsOf(acts[..|acts| - 1], u), acts[|acts| - 1];
      if a.email == u then before + [a.call] else before
  }

  function Effects(t: Tree, calls: seq<Call>): Tree {
    if calls == [] then t else Effect(Effects(t, calls[..|calls| - 1]), calls[|calls| - 1])
  }

  // ----- one act -----

  lemma OpenElsewhere(d: Tree, d': Tree, base: Path, other: Path)
    requires OnlyBelow(d, d', base) && Apart(base, other) && OpenBase(d, other)
    ensures OpenBase(d', other)
  {
    forall k | 0 <= k <= |other| && other[..k] in d'
      ensures d'[other[..k]].Dir?
    {
      PrefixTrans(base, other[..k], other);
      assert other[..k] <= other;
    }
  }

  /** An act does to its user's tree what the call does, is answered from that tree, and leaves every
      other user's tree alone. */
  lemma ActCarries(env: Env, d: Tree, c: Wire.Config, clients: map<string, Client>, a: Act, u: string)
    requires Users(env, d, clients) && Wire.Fresh(c) && ActOk(env, clients, a) && u in clients
    ensures Wire.Valid(c)
    ensures var e := Exchange(env, d, c, a.chunks);
      && Carries(env, UserBase(env, a.email), d, a.call, e)
      && View(e.disk, UserBase(env, u)) ==
         (if u == a.email then Effect(View(d, UserBase(env, u)), a.call) else View(d, UserBase(env, u)))
      && OpenBase(e.disk, UserBase(env, u))
  {
    var base, other := UserBase(env, a.email), UserBase(env, u);
    CallOnWire(env, d, c, a.chunks, clients[a.email], a.email, a.call);
    if u != a.email {
      var d' := Exchange(env, d, c, a.chunks).disk;
      UsersApart(env, a.email, u);
      OnlyBelowElsewhere(d, d', base, other);
      OpenElsewhere(d, d', base, other);
    }
  }

  /** The same, as what the disk then shows of a user. */
  lemma ActViews(env: Env, d: Tree, c: Wire.Config, clients: map<string, Client>, a: Act, u: string)
    requires Users(env, d, clients) && Wire.Fresh(c) && ActOk(env, clients, a) && u in clients
    ensures Wire.Valid(c)
    ensures var d' := NextDisk(Exchange(env, d, c, a.chunks), d);
      && View(d', UserBase(env, u)) ==
         (if u == a.email then Effect(View(d, UserBase(env, u)), a.call) else View(d, UserBase(env, u)))
      && OpenBase(d', UserBase(env, u))
  {
    ActCarries(env, d, c, clients, a, u);
  }

  lemma ActKeepsUsers(env: Env, d: Tree, c: Wire.Config, clients: map<string, Client>, a: Act)
    requires Users(env, d, clients) && Wire.Fresh(c) && ActOk(env, clients, a)
    ensures Wire.Valid(c)
    ensures Users(env, NextDisk(Exchange(env, d, c, a.chunks), d), clients)
  {
    FreshIsValid(c);
    var d' := NextDisk(Exchange(env, d, c, a.chunks), d);
    forall u | u in clients
      ensures OpenBase(d', UserBase(env, u))
    {
      ActViews(env, d, c, clients, a, u);
    }
  }

  lemma LastAct(env: Env, d: Tree, c: Wire.Config, acts: seq<Act>)
    requires Wire.Valid(c) && acts != []
    ensures var k := |acts| - 1;
            var d1 := DiskOf(env, d, c, acts[..k]);
            DiskOf(env, d, c, acts) == NextDisk(Exchange(env, d1, c, acts[k].chunks), d1)
  {
  }

  // ----- any interleaving -----

  lemma ActsBefore(env: Env, clients: map<string, Client>, acts: seq<Act>, k: nat)
    requires Acts(env, clients, acts) && k <= |acts|
    ensures Acts(env, clients, acts[..k])
  {
    assert forall i :: 0 <= i < k ==> acts[..k][i] == acts[i];
  }

  /** What the disk shows of a user, and that its root stays free of regular files. */
  ghost predicate Shows(d: Tree, base: Path, t: Tree) { View(d, base) == t && OpenBase(d, base) }

  /** However the requests of the users interleave, each user's tree on the disk is what that user's
      own requests make of it. */
  lemma {:induction false} TreesKeptApart(
    env: Env, d: Tree, c: Wire.Config, clients: map<string, Client>, acts: seq<Act>, u: string)
    requires Users(env, d, clients) && Wire.Fresh(c) && Acts(env, clients, acts) && u in clients
    ensures Wire.Valid(c)
    ensures var base := UserBase(env, u);
            Shows(DiskOf(env, d, c, acts), base, Effects(View(d, base), CallsOf(acts, u)))
    decreases |acts|
  {
    FreshIsValid(c);
    if acts != [] {
      var k, base := |acts| - 1, UserBase(env, u);
      ActsBefore(env, clients, acts, k);
      UsersStay(env, d, c, clients, acts[..k]);
      TreesKeptApart(env, d, c, clients, acts[..k], u);
      LastAct(env, d, c, acts);
      OneMoreCall(View(d, base), acts, u);
      ActViews(env, DiskOf(env, d, c, acts[..k]), c, clients, acts[k], u);
    }
  }

  lemma OneMoreCall(t: Tree, acts: seq<Act>, u: string)
    requires acts != []
    ensures var k := |acts| - 1;
            var t1 := Effects(t, CallsOf(acts[..k], u));
            Effects(t, CallsOf(acts, u)) == if acts[k].email == u then Effect(t1, acts[k].call) else t1
  {
    var before, a := CallsOf(acts[..|acts| - 1], u), acts[|acts| - 1];
    assert (before + [a.call])[..|before|] == before;
  }

  lemma {:induction false} UsersStay(
    env: Env, d: Tree, c: Wire.Config, clients: map<string, Client>, acts: seq<Act>)
    requires Users(env, d, clients) && Wire.Fresh(c) && Acts(env, clients, acts)
    ensures Wire.Valid(c) && Users(env, DiskOf(env, d, c, acts), clients)
    decreases |acts|
  {
    FreshIsValid(c);
    if acts != [] {
      var k := |acts| - 1;
      ActsBefore(env, clients, acts, k);
      UsersStay(env, d, c, clients, acts[..k]);
      LastAct(env, d, c, acts);
      ActKeepsUsers(env, DiskOf(env, d, c, acts[..k]), c, clients, acts[k]);
    }
  }

  /** And each request is answered from the tree of its own user. */
  lemma AnswersKeptApart(
    env: Env, d: Tree, c: Wire.Config, clients: map<string, Client>, acts: seq<Act>, i: nat)
    requires Users(env, d, clients) && Wire.Fresh(c) && Acts(env, clients, acts) && i < |acts|
    ensures Wire.Valid(c)
    ensures var a := acts[i];
            var t := Effects(View(d, UserBase(env, a.email)), CallsOf(acts[..i], a.email));
            var e := Exchange(env, DiskOf(env, d, c, acts[..i]), c, a.chunks);
            e.Ended? && e.op == EndOp(Answer(env.hash, t, a.call))
  {
    var a := acts[i];
    ActsBefore(env, clients, acts, i);
    UsersStay(env, d, c, clients, acts[..i]);
    TreesKeptApart(env, d, c, clients, acts[..i], a.email);
    ActCarries(env, DiskOf(env, d, c, acts[..i]), c, clients, a, a.email);
  }

  // ----- runs of several clients -----

  /** The calls of a history that connected, after the logins. */
  function DeliveredCalls(log: seq<Entry>): seq<Call> {
    if log == [] then []
    else
      var before, e := DeliveredCalls(log[..|log| - 1]), log[|log| - 1];
      if Exchanged(e) then before + [e.call] else before
  }

  lemma {:induction false} HistoryHasEffects(t: Tree, log: seq<Entry>)
    ensures TreeAfter(t, log) == Effects(t, DeliveredCalls(log))
    decreases |log|
  {
    if log != [] {
      var k := |log| - 1;
      HistoryHasEffects(t, log[..k]);
      if Exchanged(log[k]) {
        var before := DeliveredCalls(log[..k]);
        assert (before + [log[k].call])[..|before|] == before;
      }
    }
  }

  /** What the user `u` does among the acts is what a run of the client makes that connects. */
  ghost predicate IsRunOf(env: Env, d: Tree, acts: seq<Act>, u: string, root: Path, w0: World, logins: nat,
                          steps: seq<Step>)
  {
    var server := View(d, UserBase(env, u));
    && WorldOk(root, env.hash, w0) && RunOk(root, env.hash, Begin(w0, server, logins), steps)
    && CallsOf(acts, u) == DeliveredCalls(RunSteps(Begin(w0, server, logins), steps).state.log)
  }

  lemma RunIsRecorded(w0: World, server: Tree, logins: nat, steps: seq<Step>)
    requires VisitsLocal(w0) && forall i :: 0 <= i < |steps| ==> StepRuns(steps[i])
    ensures var s := RunSteps(Begin(w0, server, logins), steps).state; s.server == TreeAfter(server, s.log)
  {
    AllCallsHold(w0, steps);
    ServerIsRecorded(AllCalls(), w0, server, logins, steps);
  }

  /** Over every run of every user, however the requests interleave, with outages and probes
      anywhere: the client's model of the server is the user's tree on the shared disk. */
  lemma ModelsShareDisk(env: Env, d: Tree, c: Wire.Config, clients: map<string, Client>, acts: seq<Act>,
                        u: string, root: Path, w0: World, logins: nat, steps: seq<Step>)
    requires Users(env, d, clients) && Wire.Fresh(c) && Acts(env, clients, acts) && u in clients
    requires IsRunOf(env, d, acts, u, root, w0, logins, steps)
    ensures Wire.Valid(c)
    ensures var base := UserBase(env, u);
            View(DiskOf(env, d, c, acts), base) ==
            RunSteps(Begin(w0, View(d, base), logins), steps).state.server
  {
    var server := View(d, UserBase(env, u));
    TreesKeptApart(env, d, c, clients, acts, u);
    RunIsRecorded(w0, server, logins, steps);
    HistoryHasEffects(server, RunSteps(Begin(w0, server, logins), steps).state.log);
  }

  /** What the project is for, with many users: whenever the counter of a client whose run has been
      harmless is at least two, the shared disk holds in that user's tree, below the root, the tree
      the client watches with every content cut at its first sentinel. */
  lemma SharedDiskMirrors(env: Env, d: Tree, c: Wire.Config, clients: map<string, Client>, acts: seq<Act>,
                          u: string, root: Path, w0: World, logins: nat, steps: seq<Step>)
    requires Users(env, d, clients) && Wire.Fresh(c) && Acts(env, clients, acts) && u in clients
    requires IsRunOf(env, d, acts, u, root, w0, logins, steps) && Injective(env.hash)
    requires var server := View(d, UserBase(env, u));
             && GoodServer(root, server) && Clean(server)
             && (forall q :: q in server && root < q ==> q in w0.local)
             && BeginHarmless(w0, server, logins)
             && RunHarmless(root, iset{}, Begin(w0, server, logins), steps)
             && RunSteps(Begin(w0, server, logins), steps).state.connection >= 2
    ensures Wire.Valid(c)
    ensures var base := UserBase(env, u);
            var seen := RunSteps(Begin(w0, View(d, base), logins), steps).seen;
            var disk := View(DiskOf(env, d, c, acts), base);
            && Below(root, disk) == StoredTree(seen)
            && (Below(root, disk) == NodesOf(seen) <==> NoSentinels(seen))
  {
    var server := View(d, UserBase(env, u));
    var sys := RunSteps(Begin(w0, server, logins), steps);
    ModelsShareDisk(env, d, c, clients, acts, u, root, w0, logins, steps);
    HarmlessRunMirrors(root, w0, server, logins, steps);
    MirrorIsLocalTree(root, env.hash, sys.seen, sys.state);
  }
}
