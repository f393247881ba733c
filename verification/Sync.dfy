/** The backup client as a state machine: watcher events, checksync, outages and the
    connection counter. */
module Sync {
  import opened Text
  import opened FileTree
  import opened Store
  import opened FileWatcher

  /** A path of the watched tree, with what it holds and its last write time. */
  datatype LocalNode = LocalNode(node: Node, mtime: int)

  type Local = map<Path, LocalNode>

  function TimesOf(local: Local): Times { map p | p in local :: local[p].mtime }

  /** When the reconnect timer goes off, on a thread of its own: between two turns of the main
      loop; before the counter test of the watcher's action; between that test and the request;
      between a failed removal of `path` and the test whether to queue it; inside a checksync. */
  datatype Moment = Idle | Early | Late | Unqueued(path: Path) | Within

  /** Who makes a request: the watcher's action, checksync, or the login and reconnect probes. */
  datatype Origin = Watching | Syncing | Probing(moment: Moment)

  /** What is asked of the server: a comparison or an upload of local content, a removal, or a
      login or reconnect probe. */
  datatype Call =
    | Get(path: Path, content: string)
    | Put(path: Path, content: string)
    | Remove(path: Path)
    | Hello(name: string)

  /** The history of a run: connection attempts, and where a checksync takes up the queue. */
  datatype Entry = Attempt(origin: Origin, call: Call, ok: bool) | SyncStart(queue: seq<Path>)

  /** The user's tree on the server, the queue of deletions, the connection counter, and the
      history. */
  datatype State = State(server: Tree, deleted: seq<Path>, connection: int, log: seq<Entry>)

  /** What the client meets while it runs: the tree that stands still meanwhile, the order in
      which a checksync visits it, whether an attempt connects, whether the status left
      uninitialised by a failed GET happens to read 404 or 305, and how often the reconnect timer
      goes off at each moment, with the outcome of the probe.  All but the first two are indexed
      by the length of the history. */
  datatype World = World(
    hash: string -> string, local: Local,
    visit: nat -> seq<Path>, up: nat -> bool, junk: nat -> bool, timer: (nat, Moment) -> seq<bool>)

  // ----- requests -----

  /** What a call that connects does to the user's tree. */
  function Effect(t: Tree, call: Call): Tree {
    match call
    case Put(p, content) => if p == [] then t else Upload(t, p, Framed(content)).tree
    case Remove(p) => Delete(t, p).tree
    case _ => t
  }

  /** One connection attempt: success counts up and has its effect, failure resets the counter. */
  function Attempted(s: State, origin: Origin, call: Call, ok: bool): State {
    State(if ok then Effect(s.server, call) else s.server, s.deleted,
          if ok then s.connection + 1 else 0, s.log + [Attempt(origin, call, ok)])
  }

  function LocalContent(w: World, p: Path): string
    requires p in w.local
  {
    ContentOf(w.local[p].node)
  }

  /** A request connects or not. */
  function Send(w: World, s: State, origin: Origin, call: Call): State {
    Attempted(s, origin, call, w.up(|s.log|))
  }

  function PostPath(w: World, s: State, origin: Origin, p: Path): State
    requires p in w.local
  {
    Send(w, s, origin, Put(p, LocalContent(w, p)))
  }

  function DeletePath(w: World, s: State, origin: Origin, p: Path): State {
    Send(w, s, origin, Remove(p))
  }

  // ----- the reconnect timer -----

  /** The timer goes off: a probe is sent only while the last attempt has failed. */
  function Probe(s: State, moment: Moment, ok: bool): State {
    if s.connection == 0 then Attempted(s, Probing(moment), Hello("reconnect"), ok) else s
  }

  function Probes(s: State, moment: Moment, oks: seq<bool>): State {
    if oks == [] then s else Probe(Probes(s, moment, oks[..|oks| - 1]), moment, oks[|oks| - 1])
  }

  /** What the timer does at a moment of a turn. */
  function Waited(w: World, s: State, moment: Moment): State {
    Probes(s, moment, w.timer(|s.log|, moment))
  }

  // ----- the comparison of one path -----

  /** A request of a checksync; the timer may go off before it. */
  function SyncSend(w: World, s: State, call: Call): State {
    Send(w, Waited(w, s, Within), Syncing, call)
  }

  /** The next request of a checksync connects. */
  predicate Connects(w: World, s: State) { w.up(|Waited(w, s, Within).log|) }

  /** The outcome of a GET asks for a POST. */
  predicate AsksForPost(o: Outcome) { o == Reply(NotFound) || o == Reply(NotSync) }

  /** The server's copy of `p` is found as the local one. */
  predicate Accepts(w: World, t: Tree, p: Path)
    requires p in w.local
  {
    !AsksForPost(Compare(w.hash, t, p, w.hash(LocalContent(w, p))))
  }

  /** The comparison of `p` leads to a POST: by the reply, or by what an unanswered GET left. */
  predicate Stale(w: World, s: State, p: Path)
    requires p in w.local
  {
    if Connects(w, s) then !Accepts(w, s.server, p) else w.junk(|Waited(w, s, Within).log|)
  }

  function Compared(w: World, s: State, p: Path): State
    requires p in w.local
  {
    SyncSend(w, s, Get(p, LocalContent(w, p)))
  }

  function CheckPath(w: World, s: State, p: Path): State
    requires p in w.local
  {
    var s1 := Compared(w, s, p);
    if Stale(w, s, p) then SyncSend(w, s1, Put(p, LocalContent(w, p))) else s1
  }

  // ----- checksync -----

  function Drain(w: World, s: State, xs: seq<Path>): State {
    if xs == [] then s else SyncSend(w, Drain(w, s, xs[..|xs| - 1]), Remove(xs[|xs| - 1]))
  }

  predicate Listed(ps: seq<Path>, local: Local) {
    forall i :: 0 <= i < |ps| ==> ps[i] in local
  }

  function CheckAll(w: World, s: State, ps: seq<Path>): State
    requires Listed(ps, w.local)
  {
    if ps == [] then s else CheckPath(w, CheckAll(w, s, ps[..|ps| - 1]), ps[|ps| - 1])
  }

  /** Every visiting order lists the watched tree. */
  ghost predicate VisitsLocal(w: World) {
    && (forall n :: Listed(w.visit(n), w.local))
    && (forall n, p :: p in w.local ==> p in w.visit(n))
  }

  function Marked(s: State): State { s.(log := s.log + [SyncStart(s.deleted)]) }

  /** A checksync after its first loop: the queue is replayed, then forgotten. */
  function Drained(w: World, s: State): State {
    Drain(w, Marked(s), s.deleted).(deleted := [])
  }

  /** Replay the queued deletions, forget them, then compare every local path. */
  ghost function CheckSync(w: World, s: State): State
    requires VisitsLocal(w)
  {
    CheckAll(w, Drained(w, s), w.visit(|s.log|))
  }

  // ----- the watcher's action and the main loop -----

  /** The first success after an outage calls for a checksync. */
  ghost function SyncIfDue(w: World, s: State): State
    requires VisitsLocal(w)
  {
    if s.connection == 1 then CheckSync(w, s) else s
  }

  /** The request of the watcher's action; a removal that fails is queued, unless a probe has
      brought the counter up meanwhile. */
  function React(w: World, s: State, e: Event): State {
    if e.status == Erased then
      var s1 := Waited(w, DeletePath(w, Waited(w, s, Late), Watching, e.path), Unqueued(e.path));
      if s1.connection == 0 then s1.(deleted := s1.deleted + [e.path]) else s1
    else if e.path in w.local then PostPath(w, Waited(w, s, Late), Watching, e.path)
    else s
  }

  ghost function OnEvent(w: World, s: State, e: Event): State
    requires VisitsLocal(w)
  {
    React(w, SyncIfDue(w, Waited(w, s, Early)), e)
  }

  ghost function OnEvents(w: World, s: State, events: seq<Event>): State
    requires VisitsLocal(w)
  {
    if events == [] then s else OnEvent(w, OnEvents(w, s, events[..|events| - 1]), events[|events| - 1])
  }

  /** One turn of the main loop. */
  ghost function Tick(w: World, s: State, events: seq<Event>): State
    requires VisitsLocal(w)
  {
    OnEvents(w, SyncIfDue(w, s), events)
  }

  /** After `logins` logins that were answered, the last one accepted: the counter starts at one
      and has counted each of them. */
  function LoggedIn(server: Tree, logins: nat): State {
    if logins == 0 then State(server, [], 1, [])
    else Attempted(LoggedIn(server, logins - 1), Probing(Idle), Hello("login"), true)
  }

  // ----- runs -----

  /** The client and the tree its watcher has recorded. */
  datatype System = System(state: State, seen: Local)

  datatype Step = TickStep(w: World, events: seq<Event>) | ProbeStep(ok: bool)

  ghost predicate StepRuns(step: Step) { step.TickStep? ==> VisitsLocal(step.w) }

  ghost function Do(sys: System, step: Step): System
    requires StepRuns(step)
  {
    match step
    case TickStep(w, events) => System(Tick(w, sys.state, events), w.local)
    case ProbeStep(ok) => sys.(state := Probe(sys.state, Idle, ok))
  }

  ghost function RunSteps(sys: System, steps: seq<Step>): System
    requires forall i :: 0 <= i < |steps| ==> StepRuns(steps[i])
  {
    if steps == [] then sys else Do(RunSteps(sys, steps[..|steps| - 1]), steps[|steps| - 1])
  }

  /** Logins, snapshot, first checksync. */
  ghost function Begin(w: World, server: Tree, logins: nat): System
    requires VisitsLocal(w)
  {
    System(CheckSync(w, LoggedIn(server, logins)), w.local)
  }

  // ----- assumptions on trees -----

  /** The watched tree: paths strictly below `root`, each hanging in a directory, regular files
      exactly at names with an extension. */
  predicate GoodLocal(root: Path, local: Local) {
    forall p :: p in local ==>
      && root < p
      && (local[p].node.File? <==> NameExtension(Last(p)) != "")
      && (|p| > |root| + 1 ==> Parent(p) in local && local[Parent(p)].node.Dir?)
  }

  /** The user's tree on the server: a tree, with no regular file on the way down to the root,
      and below it regular files exactly at names with an extension. */
  predicate GoodServer(root: Path, t: Tree) {
    && Closed(t)
    && (forall p :: p in t && p <= root ==> t[p].Dir?)
    && (forall p :: p in t && root < p ==> (t[p].File? <==> NameExtension(Last(p)) != ""))
  }

  /** No stored content holds a sentinel. */
  predicate Clean(t: Tree) {
    forall p :: p in t && t[p].File? ==> !Contains(t[p].content, SENTINEL)
  }

  /** A path whose time is unchanged holds what it held. */
  predicate Follows(seen: Local, local: Local) {
    forall p :: p in seen && p in local && seen[p].mtime == local[p].mtime ==> seen[p].node == local[p].node
  }

  ghost predicate WorldOk(root: Path, hash: string -> string, w: World) {
    VisitsLocal(w) && GoodLocal(root, w.local) && w.hash == hash
  }

  ghost predicate StepOk(root: Path, hash: string -> string, seen: Local, step: Step) {
    match step
    case TickStep(w, events) =>
      WorldOk(root, hash, w) && Follows(seen, w.local) && IsScan(TimesOf(seen), TimesOf(w.local), events)
    case ProbeStep(_) => true
  }

  ghost predicate RunOk(root: Path, hash: string -> string, sys: System, steps: seq<Step>) {
    && (forall i :: 0 <= i < |steps| ==> StepRuns(steps[i]))
    && (steps != [] ==>
          && RunOk(root, hash, sys, steps[..|steps| - 1])
          && StepOk(root, hash, RunSteps(sys, steps[..|steps| - 1]).seen, steps[|steps| - 1]))
  }

  // ----- what is claimed -----

  /** From entry `n` of the history on, no attempt made by a checksync has failed. */
  predicate NoSyncOutage(log: seq<Entry>, n: nat) {
    forall i :: n <= i < |log| && log[i].Attempt? && log[i].origin == Syncing ==> log[i].ok
  }

  /** From entry `n` of the history on, no probe succeeds between a counter test of the action and
      the request after it, nor between a failed removal and the queue test. */
  predicate NoLateProbe(log: seq<Entry>, n: nat) {
    forall i :: n <= i < |log| && LateProbe(log[i]) ==> !log[i].ok
  }

  predicate LateProbe(e: Entry) {
    e.Attempt? && e.origin.Probing? && (e.origin.moment.Late? || e.origin.moment.Unqueued?)
  }

  /** The server's node backs up the local one: both directories, or the stored bytes are the
      local ones up to the first sentinel, or have the same digest. */
  predicate Backed(hash: string -> string, stored: Node, node: Node) {
    match node
    case Dir => stored == Dir
    case File(content) =>
      stored.File? && (stored.content == Framed(content) || hash(stored.content) == hash(content))
  }

  predicate BackedAt(hash: string -> string, t: Tree, local: Local, p: Path)
    requires p in local
  {
    p in t && Backed(hash, t[p], local[p].node)
  }

  /** What holds at every tick boundary, but for the paths `stale`. */
  ghost predicate Boundary(root: Path, hash: string -> string, stale: iset<Path>, seen: Local, s: State) {
    && GoodServer(root, s.server) && s.connection >= 0
    && (forall q :: q in s.server && root < q ==> q in seen || q in s.deleted || q in stale)
    && (s.connection >= 2 ==> Mirrors(root, hash, stale, seen, s))
  }

  /** The server holds every path seen, backed up, and below the root nothing else but `stale`;
      no deletion is owed. */
  ghost predicate Mirrors(root: Path, hash: string -> string, stale: iset<Path>, seen: Local, s: State) {
    && s.deleted == []
    && (forall p :: p in seen ==> BackedAt(hash, s.server, seen, p))
    && (forall q :: q in s.server && root < q ==> q in seen || q in stale)
  }

  /** What a server holds below the root that is neither watched nor queued. */
  ghost function Strays(root: Path, seen: Local, s: State): iset<Path> {
    iset q | q in s.server && root < q && q !in seen && q !in s.deleted
  }
}
