/** One client connection: reads until the parser decides, then at most one reply. */
module Connection {
  import opened Wire
  import opened Store
  import opened FileTree
  import opened RequestHandler
  import opened HandlerTheorems
  import RequestParser

  /** What a connection asks of its socket, in order; `Broken` is a handler call that ends
      without a reply. */
  datatype Op = StartRead | Write(outcome: Outcome) | Broken(outcome: Outcome)

  function EndOp(o: Outcome): Op {
    if o == Fault || o == NoSuchHeader then Broken(o) else Write(o)
  }

  /** How a parsed input ends: nothing yet, or one last operation and a new disk. */
  datatype Served = Waiting | Ended(op: Op, disk: Tree)

  function Final(env: Env, d: Tree, r: Parsed): Served {
    match r.verdict
    case Indeterminate => Waiting
    case False => Ended(Write(Reply(BadRequest)), d)
    case True =>
      var h := Handle(env, d, r.config.req);
      Ended(EndOp(h.outcome), h.tree)
  }

  function NextOp(s: Served): Op { if s.Waiting? then StartRead else s.op }

  function NextDisk(s: Served, d: Tree): Tree { if s.Waiting? then d else s.disk }

  /** A connection's end over any chunks. */
  function Exchange(env: Env, d: Tree, c: Config, chunks: seq<string>): Served
    requires Valid(c)
  {
    Final(env, d, RunChunks(c, chunks))
  }

  lemma ExchangeStep(env: Env, d: Tree, c: Config, chunks: seq<string>)
    requires Valid(c) && chunks != []
    ensures var r := Run(c, chunks[0]);
            Exchange(env, d, c, chunks) ==
            if Final(env, d, r) == Waiting then Exchange(env, d, r.config, chunks[1..]) else Final(env, d, r)
  {
  }

  /** Only the bytes matter, not how they are cut. */
  lemma ExchangeWhole(env: Env, d: Tree, c: Config, chunks: seq<string>)
    requires Valid(c)
    ensures Exchange(env, d, c, chunks) == Final(env, d, Run(c, Flatten(chunks)))
  {
    ChunkIndependence(c, chunks);
  }

  predicate AllReads(ops: seq<Op>) { forall i :: 0 <= i < |ops| ==> ops[i] == StartRead }

  class Connection {
    const request: RequestParser.Request
    const parser: RequestParser.RequestParser
    const handler: RequestHandler
    var ops: seq<Op>

    constructor (handler: RequestHandler)
      ensures this.handler == handler && fresh(request) && fresh(parser)
      ensures ops == [] && Fresh(parser.Config(request))
    {
      request := new RequestParser.Request();
      parser := new RequestParser.RequestParser();
      this.handler := handler;
      ops := [];
    }

    /** A read is under way. */
    predicate Reading()
      reads this
    {
      ops != [] && ops[|ops| - 1] == StartRead
    }

    method Start()
      modifies this`ops
      ensures ops == old(ops) + [StartRead]
    {
      ops := ops + [StartRead];
    }

    /** Completion of a read; an error ends the connection without further operations. */
    method HandleRead(error: bool, data: string)
      requires Reading() && Valid(parser.Config(request))
      modifies this`ops, parser, request, handler`disk
      ensures error ==> ops == old(ops) && handler.disk == old(handler.disk)
                        && parser.Config(request) == old(parser.Config(request))
      ensures !error ==>
                var r := Run(old(parser.Config(request)), data);
                var s := Final(handler.env, old(handler.disk), r);
                && parser.Config(request) == r.config
                && ops == old(ops) + [NextOp(s)] && handler.disk == NextDisk(s, old(handler.disk))
    {
      if error {
        return;
      }
      var verdict, consumed := parser.Parse(request, data);
      match verdict
      case True =>
        var rep, _ := handler.HandleRequest(request);
        ops := ops + [EndOp(rep)];
      case False =>
        ops := ops + [Write(Reply(BadRequest))];
      case Indeterminate =>
        ops := ops + [StartRead];
    }

    /** Keep reading as long as the parser asks for more. */
    method ReadOn(chunks: seq<string>)
      requires Reading() && AllReads(ops) && Valid(parser.Config(request))
      modifies this`ops, parser, request, handler`disk
      ensures ops != [] && AllReads(ops[..|ops| - 1])
      ensures var s := Exchange(handler.env, old(handler.disk), old(parser.Config(request)), chunks);
              ops[|ops| - 1] == NextOp(s) && handler.disk == NextDisk(s, old(handler.disk))
      decreases |chunks|
    {
      if chunks == [] {
        return;
      }
      ExchangeStep(handler.env, handler.disk, parser.Config(request), chunks);
      HandleRead(false, chunks[0]);
      if Reading() {
        ReadOn(chunks[1..]);
      }
    }

    /** Serve a client that sends `chunks`: whatever the chunks, there is at most one reply,
        no read after it, and reply and disk are those of the whole input. */
    method Serve(chunks: seq<string>)
      requires ops == [] && Fresh(parser.Config(request))
      modifies this`ops, parser, request, handler`disk
      ensures ops != [] && AllReads(ops[..|ops| - 1])
      ensures match Final(handler.env, old(handler.disk), Run(old(parser.Config(request)), Flatten(chunks)))
              case Waiting => Reading() && handler.disk == old(handler.disk)
              case Ended(op, disk) => ops[|ops| - 1] == op && handler.disk == disk
    {
      ExchangeWhole(handler.env, handler.disk, parser.Config(request), chunks);
      Start();
      ReadOn(chunks);
    }
  }

  /** "Bad request" is answered exactly when the parser rejects the input, or a logged-in
      request has a path the handler does not work on. */
  lemma BadRequestExactly(env: Env, d: Tree, r: Parsed)
    ensures Final(env, d, r) == Ended(Write(Reply(BadRequest)), d) <==>
            r.verdict == False ||
            (r.verdict == True && UserOf(env, r.config.req).Some? && PathOf(env, r.config.req).None?)
  {
    if r.verdict == True && UserOf(env, r.config.req).Some? && PathOf(env, r.config.req).Some? {
      var path := PathOf(env, r.config.req).value;
      NotBadRequest(env, d, UserOf(env, r.config.req).value, path, r.config.req);
    }
  }

  lemma NoReply(o: Outcome)
    ensures EndOp(o).Broken? <==> o == Fault || o == NoSuchHeader
    ensures EndOp(o).outcome == o
  {
  }

  /** The connection ends without a reply exactly when the handler throws or asks for a header that is
      not there; any other outcome of the handler is written. */
  lemma NoReplyExactly(env: Env, d: Tree, r: Parsed)
    ensures var s, o := Final(env, d, r), Handle(env, d, r.config.req).outcome;
      && (s.Ended? && s.op.Broken? <==> r.verdict == True && (o == Fault || o == NoSuchHeader))
      && (r.verdict == True && o != Fault && o != NoSuchHeader ==> s.op == Write(o))
  {
    NoReply(Handle(env, d, r.config.req).outcome);
  }

  lemma NotBadRequest(env: Env, d: Tree, email: string, path: string, req: RequestValue)
    ensures Perform(env, d, email, path, req).outcome != Reply(BadRequest)
  {
  }
}
