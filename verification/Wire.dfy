/** The request parser as a function: one byte, one byte string, a list of chunks. */
module Wire {
  import opened Text

  datatype Tribool = True | False | Indeterminate

  datatype Header = Header(name: string, value: string)

  /** The fields of `http::server3::request`. */
  datatype RequestValue = RequestValue(
    verb: string, uri: string, major: int, minor: int, headers: seq<Header>, content: string)

  /** The enumeration of parser states, in the source's order. */
  datatype State =
    | MethodStart | InMethod | UriStart | InUri
    | VersionH | VersionT1 | VersionT2 | VersionP | VersionSlash
    | MajorStart | Major | MinorStart | Minor | Newline1
    | LineStart | Lws | Name | SpaceBeforeValue | Value | Newline2 | Newline3
    | ContentStart | Newline4 | Content2 | Content3 | Newline5 | Content4

  // ----- byte classes -----

  predicate IsChar(b: char) { b as int <= 127 }

  predicate IsCtl(b: char) { b as int <= 31 || b as int == 127 || b as int == 63 }

  predicate IsTspecial(b: char) {
    match b
    case '(' | ')' | '<' | '>' | '@' => true
    case ',' | ';' | ':' | '\\' | '"' => true
    case '/' | '[' | ']' | '?' | '=' => true
    case '{' | '}' | ' ' | '\t' => true
    case _ => false
  }

  predicate IsDigit(b: char) { '0' <= b <= '9' }

  predicate TokenChar(b: char) { IsChar(b) && !IsCtl(b) && !IsTspecial(b) }

  predicate TextChar(b: char) { !IsCtl(b) }

  predicate Blank(b: char) { b == ' ' || b == '\t' }

  function DigitValue(b: char): int { b as int - '0' as int }

  // ----- one byte -----

  datatype Config = Config(state: State, req: RequestValue)

  predicate NeedsHeader(st: State) {
    st.Lws? || st.Name? || st.SpaceBeforeValue? || st.Value? || st.Newline2?
  }

  /** The states no input leads to. */
  predicate Dead(st: State) {
    st.UriStart? || st.Newline4? || st.Content2? || st.Content3? || st.Newline5? || st.Content4?
  }

  /** What `consume` relies on: `headers.back()` exists where it is used, and the stored
      content never holds a whole sentinel. */
  predicate Valid(c: Config) {
    && (NeedsHeader(c.state) ==> c.req.headers != [])
    && !Contains(c.req.content, SENTINEL)
  }

  predicate Fresh(c: Config) {
    && c.state == MethodStart
    && c.req.verb == "" && c.req.uri == "" && c.req.headers == [] && c.req.content == ""
  }

  function AddName(hs: seq<Header>, s: string): seq<Header>
    requires hs != []
  {
    hs[|hs| - 1 := hs[|hs| - 1].(name := hs[|hs| - 1].name + s)]
  }

  function AddValue(hs: seq<Header>, s: string): seq<Header>
    requires hs != []
  {
    hs[|hs| - 1 := hs[|hs| - 1].(value := hs[|hs| - 1].value + s)]
  }

  /** The result of one byte: a verdict and the next configuration. */
  datatype Stepped = Stepped(verdict: Tribool, config: Config)

  function Reject(c: Config): Stepped { Stepped(False, c) }

  function Goto(c: Config, st: State): Stepped { Stepped(Indeterminate, c.(state := st)) }

  function Put(st: State, req: RequestValue): Stepped {
    Stepped(Indeterminate, Config(st, req))
  }

  /** `consume`, with the sentinel search replaced by a test of the last four bytes. */
  function Step(c: Config, b: char): (r: Stepped)
    requires Valid(c)
    ensures Valid(r.config)
    ensures !Dead(c.state) ==> !Dead(r.config.state)
  {
    var req := c.req;
    match c.state
    case MethodStart =>
      if TokenChar(b) then Put(InMethod, req.(verb := req.verb + [b])) else Reject(c)
    case InMethod =>
      if b == ' ' then Goto(c, InUri)
      else if TokenChar(b) then Put(InMethod, req.(verb := req.verb + [b]))
      else Reject(c)
    case UriStart =>
      if IsCtl(b) then Reject(c) else Put(InUri, req.(uri := req.uri + [b]))
    case InUri =>
      if b == '?' then Goto(c, VersionH)
      else if IsCtl(b) then Reject(c)
      else Put(InUri, req.(uri := req.uri + [b]))
    case VersionH => if b == 'H' then Goto(c, VersionT1) else Reject(c)
    case VersionT1 => if b == 'T' then Goto(c, VersionT2) else Reject(c)
    case VersionT2 => if b == 'T' then Goto(c, VersionP) else Reject(c)
    case VersionP => if b == 'P' then Goto(c, VersionSlash) else Reject(c)
    case VersionSlash =>
      if b == '/' then Put(MajorStart, req.(major := 0, minor := 0)) else Reject(c)
    case MajorStart =>
      if IsDigit(b) then Put(Major, req.(major := req.major * 10 + DigitValue(b))) else Reject(c)
    case Major =>
      if b == '.' then Goto(c, MinorStart)
      else if IsDigit(b) then Put(Major, req.(major := req.major * 10 + DigitValue(b)))
      else Reject(c)
    case MinorStart =>
      if IsDigit(b) then Put(Minor, req.(minor := req.minor * 10 + DigitValue(b))) else Reject(c)
    case Minor =>
      if b == '\r' then Goto(c, Newline1)
      else if IsDigit(b) then Put(Minor, req.(minor := req.minor * 10 + DigitValue(b)))
      else Reject(c)
    case Newline1 => if b == '\n' then Goto(c, LineStart) else Reject(c)
    case LineStart =>
      if b == '\r' then Goto(c, Newline3)
      else if req.headers != [] && Blank(b) then Goto(c, Lws)
      else if TokenChar(b) then Put(Name, req.(headers := req.headers + [Header([b], "")]))
      else Reject(c)
    case Lws =>
      if b == '\r' then Goto(c, Newline2)
      else if Blank(b) then Goto(c, Lws)
      else if IsCtl(b) then Reject(c)
      else Put(Value, req.(headers := AddValue(req.headers, [b])))
    case Name =>
      if b == ':' then Goto(c, SpaceBeforeValue)
      else if TokenChar(b) then Put(Name, req.(headers := AddName(req.headers, [b])))
      else Reject(c)
    case SpaceBeforeValue => if b == ' ' then Goto(c, Value) else Reject(c)
    case Value =>
      if b == '\r' then Goto(c, Newline2)
      else if IsCtl(b) then Reject(c)
      else Put(Value, req.(headers := AddValue(req.headers, [b])))
    case Newline2 => if b == '\n' then Goto(c, LineStart) else Reject(c)
    case Newline3 => if b == '\n' then Goto(c, ContentStart) else Reject(c)
    case ContentStart =>
      var content := req.content + [b];
      SentinelOnlyAtEnd(req.content, b);
      if EndsWith(content, SENTINEL) then
        PrefixHasNoSentinel(req.content, |content| - 4);
        assert content[..|content| - 4] == req.content[..|content| - 4];
        Stepped(True, c.(req := req.(content := content[..|content| - 4])))
      else
        Put(ContentStart, req.(content := content))
    case Newline4 => Stepped(if b == '\n' then True else False, c)
    case _ => Reject(c)
  }

  lemma PrefixHasNoSentinel(s: string, n: nat)
    requires n <= |s| && !Contains(s, SENTINEL)
    ensures !Contains(s[..n], SENTINEL)
  {
    FramedClean(s, n);
  }

  // ----- a byte string -----

  datatype Parsed = Parsed(verdict: Tribool, consumed: nat, config: Config)

  /** `parse` over a whole byte string. */
  function Run(c: Config, s: string): (r: Parsed)
    requires Valid(c)
    ensures Valid(r.config) && r.consumed <= |s|
    ensures if r.verdict.Indeterminate? then r.consumed == |s| else r.consumed > 0
    ensures !Dead(c.state) ==> !Dead(r.config.state)
    decreases |s|
  {
    if s == "" then Parsed(Indeterminate, 0, c)
    else
      var st := Step(c, s[0]);
      if st.verdict.Indeterminate? then
        var rest := Run(st.config, s[1..]);
        rest.(consumed := rest.consumed + 1)
      else
        Parsed(st.verdict, 1, st.config)
  }

  /** Parsing can be stopped and resumed at any point of the input. */
  lemma {:induction false} RunConcat(c: Config, a: string, b: string)
    requires Valid(c)
    ensures var r := Run(c, a);
            Run(c, a + b) ==
            if r.verdict.Indeterminate? then
              var rest := Run(r.config, b); rest.(consumed := |a| + rest.consumed)
            else r
    decreases |a|
  {
    if a == "" {
      assert a + b == b;
    } else {
      var st := Step(c, a[0]);
      assert (a + b)[0] == a[0] && (a + b)[1..] == a[1..] + b;
      if st.verdict.Indeterminate? {
        RunConcat(st.config, a[1..], b);
      }
    }
  }

  // ----- chunks -----

  function Flatten(chunks: seq<string>): string {
    if chunks == [] then "" else chunks[0] + Flatten(chunks[1..])
  }

  /** Feed chunks one read at a time and stop reading at the first definite verdict. */
  function RunChunks(c: Config, chunks: seq<string>): (r: Parsed)
    requires Valid(c)
    ensures Valid(r.config)
    decreases |chunks|
  {
    if chunks == [] then Parsed(Indeterminate, 0, c)
    else
      var r := Run(c, chunks[0]);
      if r.verdict.Indeterminate? then
        var rest := RunChunks(r.config, chunks[1..]);
        rest.(consumed := r.consumed + rest.consumed)
      else r
  }

  /** The division of the input into chunks never matters. */
  lemma {:induction false} ChunkIndependence(c: Config, chunks: seq<string>)
    requires Valid(c)
    ensures RunChunks(c, chunks) == Run(c, Flatten(chunks))
    decreases |chunks|
  {
    if chunks != [] {
      RunConcat(c, chunks[0], Flatten(chunks[1..]));
      var r := Run(c, chunks[0]);
      if r.verdict.Indeterminate? {
        ChunkIndependence(r.config, chunks[1..]);
      }
    }
  }
}
