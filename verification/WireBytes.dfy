/** The parser byte by byte, in character literals: which bytes a method, a path and a header may
    hold, and what happens at the others. */
module WireBytes {
  import opened Text
  import opened Wire
  import opened Grammar
  import opened ParserTheorems
  import opened ClientRequest
  import GrammarCompleteness

  /** The bytes of a method or a header name. */
  predicate NameByte(b: char) {
    'A' <= b <= 'Z' || 'a' <= b <= 'z' || '0' <= b <= '9' || b in "!#$%&'*+-.^_`|~"
  }

  /** The printable bytes, blanks included, and those above them; a question mark ends a path. */
  predicate PathByte(b: char) { (' ' <= b <= '~' && b != '?') || b as int >= 128 }

  predicate AllName(s: string) { forall i :: 0 <= i < |s| ==> NameByte(s[i]) }

  predicate AllPath(s: string) { forall i :: 0 <= i < |s| ==> PathByte(s[i]) }

  // ----- one byte -----

  lemma MarkIsToken(b: char)
    requires ' ' <= b <= '~'
    ensures TokenChar(b) <==> NameByte(b)
  {
    var marks := "!#$%&'*+-.^_`|~";
    assert b in marks <==> exists i :: 0 <= i < 15 && marks[i] == b;
    assert marks[0] == '!' && marks[1] == '#' && marks[2] == '$' && marks[3] == '%' && marks[4] == '&';
    assert marks[5] == '\'' && marks[6] == '*' && marks[7] == '+' && marks[8] == '-' && marks[9] == '.';
    assert marks[10] == '^' && marks[11] == '_' && marks[12] == '`' && marks[13] == '|' && marks[14] == '~';
  }

  lemma TokenIsName(b: char)
    ensures TokenChar(b) <==> NameByte(b)
  {
    if ' ' <= b <= '~' {
      MarkIsToken(b);
    }
  }

  lemma TextIsPath(b: char)
    ensures TextChar(b) <==> PathByte(b)
  {
  }

  lemma TextsArePaths(s: string)
    ensures AllText(s) <==> AllPath(s)
  {
    forall i | 0 <= i < |s|
      ensures TextChar(s[i]) <==> PathByte(s[i])
    {
      TextIsPath(s[i]);
    }
  }

  lemma TokensAreNames(s: string)
    ensures AllToken(s) <==> AllName(s)
  {
    forall i | 0 <= i < |s|
      ensures TokenChar(s[i]) <==> NameByte(s[i])
    {
      TokenIsName(s[i]);
    }
  }

  /** A byte of the method. */
  lemma MethodByte(c: Config, b: char)
    requires Valid(c) && (c.state == MethodStart || c.state == InMethod)
    ensures Step(c, b) ==
            if c.state == InMethod && b == ' ' then Stepped(Indeterminate, c.(state := InUri))
            else if NameByte(b) then Stepped(Indeterminate, Config(InMethod, c.req.(verb := c.req.verb + [b])))
            else Stepped(False, c)
  {
    TokenIsName(b);
  }

  /** A byte of the path: a control byte below 32, or 127, is rejected where it stands, a question
      mark ends the path, and any other byte belongs to it. */
  lemma UriByte(c: Config, b: char)
    requires Valid(c) && c.state == InUri
    ensures Step(c, b) ==
            if b == '?' then Stepped(Indeterminate, c.(state := VersionH))
            else if b as int < 32 || b as int == 127 then Stepped(False, c)
            else Stepped(Indeterminate, c.(req := c.req.(uri := c.req.uri + [b])))
  {
  }

  /** A byte of a version number. */
  lemma VersionByte(c: Config, b: char)
    requires Valid(c)
    ensures c.state == MajorStart || (c.state == Major && b != '.') ==>
              Step(c, b) == if '0' <= b <= '9'
                            then Stepped(Indeterminate,
                                   Config(Major, c.req.(major := c.req.major * 10 + (b as int - '0' as int))))
                            else Stepped(False, c)
    ensures c.state == MinorStart || (c.state == Minor && b != '\r') ==>
              Step(c, b) == if '0' <= b <= '9'
                            then Stepped(Indeterminate,
                                   Config(Minor, c.req.(minor := c.req.minor * 10 + (b as int - '0' as int))))
                            else Stepped(False, c)
    ensures c.state == Major && b == '.' ==> Step(c, b) == Stepped(Indeterminate, c.(state := MinorStart))
    ensures c.state == Minor && b == '\r' ==> Step(c, b) == Stepped(Indeterminate, c.(state := Newline1))
  {
  }

  /** The first byte of a line: the end of the head, a continuation, or a new header. */
  lemma LineByte(c: Config, b: char)
    requires Valid(c) && c.state == LineStart
    ensures Step(c, b) ==
            if b == '\r' then Stepped(Indeterminate, c.(state := Newline3))
            else if c.req.headers != [] && (b == ' ' || b == '\t') then Stepped(Indeterminate, c.(state := Lws))
            else if NameByte(b)
            then Stepped(Indeterminate, Config(Name, c.req.(headers := c.req.headers + [Header([b], "")])))
            else Stepped(False, c)
  {
    TokenIsName(b);
  }

  /** A byte of a header name, with what comes before its value. */
  lemma HeaderNameByte(c: Config, b: char)
    requires Valid(c)
    ensures c.state == Name ==>
              Step(c, b) ==
              if b == ':' then Stepped(Indeterminate, c.(state := SpaceBeforeValue))
              else if NameByte(b)
              then
                var k := |c.req.headers| - 1;
                var h := c.req.headers[k];
                var hs := c.req.headers[k := Header(h.name + [b], h.value)];
                Stepped(Indeterminate, c.(req := c.req.(headers := hs)))
              else Stepped(False, c)
    ensures c.state == SpaceBeforeValue ==>
              Step(c, b) == if b == ' ' then Stepped(Indeterminate, c.(state := Value)) else Stepped(False, c)
  {
    TokenIsName(b);
  }

  /** A byte of a header value; blanks at the beginning of a continuation are skipped. */
  lemma HeaderValueByte(c: Config, b: char)
    requires Valid(c) && (c.state == Value || c.state == Lws)
    ensures var k := |c.req.headers| - 1;
            var h := c.req.headers[k];
            Step(c, b) ==
            if b == '\r' then Stepped(Indeterminate, c.(state := Newline2))
            else if c.state == Lws && (b == ' ' || b == '\t') then Stepped(Indeterminate, c)
            else if b as int < 32 || b as int == 127 || b == '?' then Stepped(False, c)
            else
              var hs := c.req.headers[k := Header(h.name, h.value + [b])];
              Stepped(Indeterminate, Config(Value, c.req.(headers := hs)))
  {
  }

  // ----- whole requests -----

  /** Every argument is one the head of a request can hold. */
  predicate Printable(r: ClientRequest.Request) {
    && r.verb != "" && AllName(r.verb) && AllPath(r.path)
    && AllPath(r.server) && AllPath(r.email) && AllPath(r.auth) && AllPath(r.length) && AllPath(r.contentType)
  }

  lemma PrintableIsOk(r: ClientRequest.Request)
    ensures Printable(r) <==> HeadOk(r)
  {
    TokensAreNames(r.verb);
    TextsArePaths(r.path);
    TextsArePaths(r.server);
    TextsArePaths(r.email);
    TextsArePaths(r.auth);
    TextsArePaths(r.length);
    TextsArePaths(r.contentType);
  }

  /** A printed request whose path holds printable bytes, blanks included, and no question mark is
      accepted with that very path, its method, version 1.1 and its seven headers; and its body, if
      it does not hold the four bytes that end a body, is delivered as it is. */
  lemma PrintedIsAccepted(c: Config, r: ClientRequest.Request)
    requires Fresh(c) && Printable(r)
    ensures Valid(c)
    ensures var p := Run(c, Print(r));
      && p.verdict == True && p.config.req.verb == r.verb && p.config.req.uri == r.path
      && p.config.req.major == 1 && p.config.req.minor == 1 && SevenHeaders(r, p.config.req.headers)
      && (!Contains(r.content, "EOF%") ==> p.config.req.content == r.content && p.consumed == |Print(r)| - 1)
  {
    PrintableIsOk(r);
    FramedRoundTrip(c, r);
    FramedSpec(r.content);
    SevenFields(r);
  }

  /** A body is cut at the first four bytes that end one. */
  lemma BodyIsCut(c: Config, r: ClientRequest.Request, kept: string, lost: string)
    requires Fresh(c) && Printable(r) && r.content == kept + "EOF%" + lost && !Contains(kept + "EOF", "EOF%")
    ensures Valid(c) && Run(c, Print(r)).verdict == True && Run(c, Print(r)).config.req.content == kept
  {
    PrintableIsOk(r);
    FramedRoundTrip(c, r);
    CutAtFirst(kept, lost);
  }

  lemma CutAtFirst(kept: string, lost: string)
    requires !Contains(kept + "EOF", "EOF%")
    ensures Framed(kept + "EOF%" + lost) == kept
  {
    var s := kept + "EOF%" + lost + SENTINEL;
    assert kept + "EOF%" + lost + SENTINEL == kept + "EOF%" + (lost + SENTINEL);
    assert OccursAt(s, SENTINEL, |kept|) by {
      assert s[|kept|..|kept| + 4] == "EOF%";
    }
    forall i | 0 <= i < |kept|
      ensures !OccursAt(s, SENTINEL, i)
    {
      assert s[i..i + 4] == (kept + "EOF")[i..i + 4];
      assert !OccursAt(kept + "EOF", "EOF%", i);
    }
    assert Find(s, SENTINEL) == |kept|;
    assert s[..|kept|] == kept;
  }

  /** A control byte in the path is answered by rejection right there. */
  lemma ControlByteIsRejected(c: Config, verb: string, path: string, b: char, rest: string)
    requires Fresh(c) && verb != "" && AllName(verb) && AllPath(path) && (b as int < 32 || b as int == 127)
    ensures Valid(c)
    ensures var p := Run(c, verb + " " + path + [b] + rest);
            p.verdict == False && p.consumed == |verb| + 1 + |path| + 1
  {
    var m := Message(verb, path, "1", "1", [], "");
    var c1 := Config(InUri, c.req.(verb := verb, uri := path));
    TokensAreNames(verb);
    TextsArePaths(path);
    assert AllDigits("1");
    GrammarCompleteness.ReachTarget(c, m);
    UriByte(c1, b);
    assert verb + " " + path + [b] + rest == Target(m) + ([b] + rest);
    RunConcat(c, Target(m), [b] + rest);
    assert Run(c1, [b] + rest).consumed == 1;
  }

  /** So is any byte but a letter, a digit or one of fifteen marks in the method. */
  lemma MethodIsRejected(c: Config, verb: string, b: char, rest: string)
    requires Fresh(c) && AllName(verb) && !NameByte(b) && (verb != "" ==> b != ' ')
    ensures Valid(c)
    ensures var p := Run(c, verb + [b] + rest); p.verdict == False && p.consumed == |verb| + 1
  {
    FreshValid(c);
    MethodReached(c, verb);
    var c1 := if verb == "" then c else Config(InMethod, c.req.(verb := verb));
    MethodByte(c1, b);
    assert verb + [b] + rest == verb + ([b] + rest);
    RunConcat(c, verb, [b] + rest);
    assert Run(c1, [b] + rest).consumed == 1;
  }

  lemma MethodReached(c: Config, verb: string)
    requires Fresh(c) && AllName(verb)
    ensures GrammarCompleteness.Reaches(c, verb, if verb == "" then c else Config(InMethod, c.req.(verb := verb)))
  {
    if verb != "" {
      MethodBegun(c, verb[0], verb[1..]);
      assert [verb[0]] + verb[1..] == verb;
    }
  }

  lemma MethodBegun(c: Config, b: char, rest: string)
    requires Fresh(c) && NameByte(b) && AllName(rest)
    ensures GrammarCompleteness.Reaches(c, [b] + rest, Config(InMethod, c.req.(verb := [b] + rest)))
  {
    var c1 := Config(InMethod, c.req.(verb := [b]));
    MethodByte(c, b);
    assert "" + [b] == [b];
    GrammarCompleteness.ThenByte(c, "", c, b);
    TokensAreNames(rest);
    GrammarCompleteness.LoopReaches(c1, rest);
    GrammarCompleteness.Then(c, [b], c1, rest, Config(InMethod, c.req.(verb := [b] + rest)));
  }
}
