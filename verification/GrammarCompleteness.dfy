/** Every well-formed message is accepted, byte by byte, with its meaning. */
module GrammarCompleteness {
  import opened Text
  import opened Wire
  import opened Grammar

  /** All of `s` is consumed from `c` without a verdict, ending in `c'`. */
  predicate Reaches(c: Config, s: string, c': Config) {
    Valid(c) && Run(c, s) == Parsed(Indeterminate, |s|, c')
  }

  lemma Then(c: Config, a: string, c1: Config, b: string, c2: Config)
    requires Reaches(c, a, c1) && Reaches(c1, b, c2)
    ensures Reaches(c, a + b, c2)
  {
    RunConcat(c, a, b);
  }

  lemma ThenByte(c: Config, a: string, c1: Config, b: char)
    requires Reaches(c, a, c1)
    requires Step(c1, b).verdict.Indeterminate?
    ensures Reaches(c, a + [b], Step(c1, b).config)
  {
    assert [b][1..] == "";
    assert Reaches(c1, [b], Step(c1, b).config);
    Then(c, a, c1, [b], Step(c1, b).config);
  }

  /** The bytes that leave a state where it is. */
  predicate Loops(st: State, b: char) {
    match st
    case InMethod => TokenChar(b)
    case InUri => TextChar(b)
    case Major => IsDigit(b)
    case Minor => IsDigit(b)
    case Name => TokenChar(b)
    case Value => TextChar(b)
    case Lws => Blank(b)
    case _ => false
  }

  function Absorb(c: Config, s: string): Config
    requires Valid(c)
  {
    var r := c.req;
    match c.state
    case InMethod => c.(req := r.(verb := r.verb + s))
    case InUri => c.(req := r.(uri := r.uri + s))
    case Major => c.(req := r.(major := Decimal(r.major, s)))
    case Minor => c.(req := r.(minor := Decimal(r.minor, s)))
    case Name => c.(req := r.(headers := AddName(r.headers, s)))
    case Value => c.(req := r.(headers := AddValue(r.headers, s)))
    case _ => c
  }

  lemma {:induction false} LoopReaches(c: Config, s: string)
    requires Valid(c)
    requires forall i :: 0 <= i < |s| ==> Loops(c.state, s[i])
    ensures Reaches(c, s, Absorb(c, s))
    decreases |s|
  {
    if s == "" {
      AbsorbNothing(c);
    } else {
      var k := |s| - 1;
      LoopReaches(c, s[..k]);
      AbsorbByte(c, s[..k], s[k]);
      assert s[..k] + [s[k]] == s;
      ThenByte(c, s[..k], Absorb(c, s[..k]), s[k]);
    }
  }

  lemma AbsorbNothing(c: Config)
    requires Valid(c)
    ensures Absorb(c, "") == c
  {
    var r := c.req;
    assert r.verb + "" == r.verb && r.uri + "" == r.uri;
    if r.headers != [] {
      var l := r.headers[|r.headers| - 1];
      assert l.name + "" == l.name && l.value + "" == l.value;
      assert AddName(r.headers, "") == r.headers && AddValue(r.headers, "") == r.headers;
    }
  }

  lemma AbsorbByte(c: Config, s: string, b: char)
    requires Valid(c) && Loops(c.state, b)
    ensures Valid(Absorb(c, s))
    ensures Step(Absorb(c, s), b) == Stepped(Indeterminate, Absorb(c, s + [b]))
  {
    var r := c.req;
    assert r.verb + s + [b] == r.verb + (s + [b]);
    assert r.uri + s + [b] == r.uri + (s + [b]);
    assert (s + [b])[..|s|] == s;
    if r.headers != [] {
      var l := r.headers[|r.headers| - 1];
      assert l.name + s + [b] == l.name + (s + [b]);
      assert l.value + s + [b] == l.value + (s + [b]);
      assert AddName(AddName(r.headers, s), [b]) == AddName(r.headers, s + [b]);
      assert AddValue(AddValue(r.headers, s), [b]) == AddValue(r.headers, s + [b]);
    }
  }

  // ----- the request line -----

  lemma ReachTarget(c: Config, m: Message)
    requires Fresh(c) && WellFormed(m)
    ensures Reaches(c, Target(m), Config(InUri, c.req.(verb := m.verb, uri := m.uri)))
  {
    var v := m.verb;
    var c1 := Config(InMethod, c.req.(verb := [v[0]]));
    assert "" + [v[0]] == [v[0]];
    ThenByte(c, "", c, v[0]);
    LoopReaches(c1, v[1..]);
    assert [v[0]] + v[1..] == v;
    var c2 := Config(InMethod, c.req.(verb := v));
    Then(c, [v[0]], c1, v[1..], c2);
    ThenByte(c, v, c2, ' ');
    var c3 := Config(InUri, c.req.(verb := v));
    LoopReaches(c3, m.uri);
    assert "" + m.uri == m.uri;
    Then(c, v + " ", c3, m.uri, Config(InUri, c.req.(verb := v, uri := m.uri)));
  }

  /** Two bytes that each move to a next state. */
  lemma ReachTwo(c: Config, a: char, b: char)
    requires Valid(c) && Step(c, a).verdict.Indeterminate? && Step(Step(c, a).config, b).verdict.Indeterminate?
    ensures Reaches(c, [a, b], Step(Step(c, a).config, b).config)
  {
    assert [] + [a] == [a] && [a] + [b] == [a, b];
    ThenByte(c, [], c, a);
    ThenByte(c, [a], Step(c, a).config, b);
  }

  lemma ReachVersionStart(c: Config)
    requires Valid(c) && c.state == InUri
    ensures Reaches(c, "?HTTP/", Config(MajorStart, c.req.(major := 0, minor := 0)))
  {
    var c1, c2 := c.(state := VersionT1), c.(state := VersionP);
    var c3 := Config(MajorStart, c.req.(major := 0, minor := 0));
    ReachTwo(c, '?', 'H');
    ReachTwo(c1, 'T', 'T');
    ReachTwo(c2, 'P', '/');
    Then(c1, "TT", c2, "P/", c3);
    Then(c, "?H", c1, "TT" + "P/", c3);
    assert "?H" + ("TT" + "P/") == "?HTTP/";
  }

  lemma DecimalFirst(acc: int, s: string)
    requires s != ""
    ensures Decimal(acc, s) == Decimal(acc * 10 + DigitValue(s[0]), s[1..])
    decreases |s|
  {
    var k := |s| - 1;
    if k > 0 {
      DecimalFirst(acc, s[..k]);
      assert s[..k][1..] == s[1..][..k - 1];
    } else {
      assert s[..0] == "" && s[1..] == "";
    }
  }

  lemma ReachDigits(c: Config, c1: Config, digits: string)
    requires Valid(c) && digits != "" && AllDigits(digits)
    requires Step(c, digits[0]) == Stepped(Indeterminate, c1) && (c1.state == Major || c1.state == Minor)
    ensures Reaches(c, digits, Absorb(c1, digits[1..]))
  {
    assert [] + [digits[0]] == [digits[0]];
    ThenByte(c, [], c, digits[0]);
    LoopReaches(c1, digits[1..]);
    Then(c, [digits[0]], c1, digits[1..], Absorb(c1, digits[1..]));
    assert [digits[0]] + digits[1..] == digits;
  }

  lemma ReachNumber(c: Config, digits: string)
    requires Valid(c) && (c.state == MajorStart || c.state == MinorStart)
    requires digits != "" && AllDigits(digits)
    ensures Reaches(c, digits,
                    if c.state == MajorStart
                    then Config(Major, c.req.(major := Decimal(c.req.major, digits)))
                    else Config(Minor, c.req.(minor := Decimal(c.req.minor, digits))))
  {
    ReachDigits(c, Step(c, digits[0]).config, digits);
    DecimalFirst(if c.state == MajorStart then c.req.major else c.req.minor, digits);
  }

  /** The configuration after the request line of `m`. */
  function AfterRequestLine(c: Config, m: Message): Config {
    Config(LineStart, c.req.(verb := m.verb, uri := m.uri,
           major := Decimal(0, m.major), minor := Decimal(0, m.minor)))
  }

  /** Up to the major version number. */
  lemma ReachMajor(c: Config, m: Message)
    requires Fresh(c) && WellFormed(m)
    ensures Reaches(c, Target(m) + "?HTTP/" + m.major,
                    Config(Major, AfterRequestLine(c, m).req.(minor := 0)))
  {
    var c1 := Config(InUri, c.req.(verb := m.verb, uri := m.uri));
    ReachTarget(c, m);
    var c2 := Config(MajorStart, c1.req.(major := 0, minor := 0));
    ReachVersionStart(c1);
    Then(c, Target(m), c1, "?HTTP/", c2);
    var c3 := Config(Major, c2.req.(major := Decimal(0, m.major)));
    ReachNumber(c2, m.major);
    Then(c, Target(m) + "?HTTP/", c2, m.major, c3);
  }

  /** From the dot to the minor version number. */
  lemma ReachMinor(c: Config, minor: string)
    requires Valid(c) && c.state == Major && c.req.minor == 0 && minor != "" && AllDigits(minor)
    ensures Reaches(c, "." + minor, Config(Minor, c.req.(minor := Decimal(0, minor))))
  {
    assert "" + "." == ".";
    ThenByte(c, "", c, '.');
    var c1 := c.(state := MinorStart);
    ReachNumber(c1, minor);
    Then(c, ".", c1, minor, Config(Minor, c.req.(minor := Decimal(0, minor))));
  }

  lemma ReachFirstLineEnd(c: Config)
    requires Valid(c) && c.state == Minor
    ensures Reaches(c, "\r\n", c.(state := LineStart))
  {
    assert "" + "\r" == "\r" && "\r" + "\n" == "\r\n";
    ThenByte(c, "", c, '\r');
    ThenByte(c, "\r", c.(state := Newline1), '\n');
  }

  lemma ReachRequestLine(c: Config, m: Message)
    requires Fresh(c) && WellFormed(m)
    ensures Reaches(c, RequestLine(m), AfterRequestLine(c, m))
  {
    var after := AfterRequestLine(c, m);
    var s := Target(m) + "?HTTP/" + m.major;
    var c1 := Config(Major, after.req.(minor := 0));
    var c2 := Config(Minor, after.req);
    ReachMajor(c, m);
    ReachMinor(c1, m.minor);
    Then(c, s, c1, "." + m.minor, c2);
    ReachFirstLineEnd(c2);
    Then(c, s + ("." + m.minor), c2, "\r\n", after);
    assert s + ("." + m.minor) + "\r\n" == RequestLine(m);
  }

  // ----- header lines -----

  /** The state after a line without its CR LF: an empty last fold leaves the blanks open. */
  function LineEnd(l: Line): State {
    if l.folds != [] && l.folds[|l.folds| - 1].text == "" then Lws else Value
  }

  function WithHeaders(c: Config, st: State, hs: seq<Header>): Config {
    Config(st, c.req.(headers := c.req.headers + hs))
  }

  /** From the start of a line through the name, the colon and the space. */
  lemma ReachName(c: Config, n: string)
    requires Valid(c) && c.state == LineStart && n != "" && AllToken(n)
    ensures Reaches(c, n + ": ", WithHeaders(c, Value, [Header(n, "")]))
  {
    assert "" + [n[0]] == [n[0]];
    ThenByte(c, "", c, n[0]);
    var c1 := WithHeaders(c, Name, [Header([n[0]], "")]);
    LoopReaches(c1, n[1..]);
    assert [n[0]] + n[1..] == n;
    var c2 := WithHeaders(c, Name, [Header(n, "")]);
    assert AddName(c1.req.headers, n[1..]) == c2.req.headers;
    Then(c, [n[0]], c1, n[1..], c2);
    ReachColon(c2);
    Then(c, n, c2, ": ", c2.(state := Value));
  }

  lemma ReachColon(c: Config)
    requires Valid(c) && c.state == Name
    ensures Reaches(c, ": ", c.(state := Value))
  {
    assert "" + ":" == ":" && ":" + " " == ": ";
    ThenByte(c, "", c, ':');
    ThenByte(c, ":", c.(state := SpaceBeforeValue), ' ');
  }

  lemma ReachFirstLine(c: Config, l: Line)
    requires Valid(c) && c.state == LineStart
    requires LineOk(l) && l.folds == []
    ensures Reaches(c, RenderLine(l), WithHeaders(c, Value, [HeaderOf(l)]))
  {
    ReachName(c, l.name);
    var c1 := WithHeaders(c, Value, [Header(l.name, "")]);
    LoopReaches(c1, l.value);
    var c2 := WithHeaders(c, Value, [Header(l.name, l.value)]);
    assert "" + l.value == l.value;
    assert AddValue(c1.req.headers, l.value) == c2.req.headers;
    Then(c, l.name + ": ", c1, l.value, c2);
    assert RenderLine(l) == l.name + ": " + l.value;
    assert HeaderOf(l) == Header(l.name, l.value);
  }

  lemma ReachLineBreak(c: Config)
    requires Valid(c) && (c.state == Value || c.state == Lws) && c.req.headers != []
    ensures Reaches(c, "\r\n", c.(state := LineStart))
  {
    assert "" + "\r" == "\r" && "\r" + "\n" == "\r\n";
    ThenByte(c, "", c, '\r');
    ThenByte(c, "\r", c.(state := Newline2), '\n');
  }

  lemma ReachBlanks(c: Config, blanks: string)
    requires Valid(c) && (c.state == Value || c.state == Lws) && c.req.headers != []
    requires blanks != "" && AllBlank(blanks)
    ensures Reaches(c, "\r\n" + blanks, c.(state := Lws))
  {
    ReachLineBreak(c);
    ThenByte(c, "\r\n", c.(state := LineStart), blanks[0]);
    var c1 := c.(state := Lws);
    LoopReaches(c1, blanks[1..]);
    Then(c, "\r\n" + [blanks[0]], c1, blanks[1..], c1);
    assert "\r\n" + [blanks[0]] + blanks[1..] == "\r\n" + blanks;
  }

  lemma ReachFoldText(c: Config, text: string)
    requires Valid(c) && c.state == Lws
    requires text != "" && AllText(text) && text[0] != ' '
    ensures Reaches(c, text, Config(Value, c.req.(headers := AddValue(c.req.headers, text))))
  {
    assert "" + [text[0]] == [text[0]];
    ThenByte(c, "", c, text[0]);
    var c1 := Config(Value, c.req.(headers := AddValue(c.req.headers, [text[0]])));
    LoopReaches(c1, text[1..]);
    assert [text[0]] + text[1..] == text;
    var v := c.req.headers[|c.req.headers| - 1].value;
    assert v + [text[0]] + text[1..] == v + text;
    assert AddValue(c1.req.headers, text[1..]) == AddValue(c.req.headers, text);
    Then(c, [text[0]], c1, text[1..], Absorb(c1, text[1..]));
  }

  lemma ReachFold(c: Config, f: Fold)
    requires Valid(c) && (c.state == Value || c.state == Lws) && c.req.headers != [] && FoldOk(f)
    ensures Reaches(c, "\r\n" + f.blanks + f.text,
                    Config(if f.text == "" then Lws else Value,
                           c.req.(headers := AddValue(c.req.headers, f.text))))
  {
    ReachBlanks(c, f.blanks);
    var c1 := c.(state := Lws);
    if f.text == "" {
      AbsorbNothing(c.(state := Value));
      assert "\r\n" + f.blanks + f.text == "\r\n" + f.blanks;
    } else {
      ReachFoldText(c1, f.text);
      Then(c, "\r\n" + f.blanks, c1, f.text,
           Config(Value, c.req.(headers := AddValue(c.req.headers, f.text))));
    }
  }

  /** One more fold after the others. */
  lemma FoldAdded(hs: seq<Header>, l: Line)
    requires l.folds != []
    ensures var shorter, f := l.(folds := l.folds[..|l.folds| - 1]), l.folds[|l.folds| - 1];
            && RenderLine(shorter) + ("\r\n" + f.blanks + f.text) == RenderLine(l)
            && AddValue(hs + [HeaderOf(shorter)], f.text) == hs + [HeaderOf(l)]
  {
    var shorter, f := l.(folds := l.folds[..|l.folds| - 1]), l.folds[|l.folds| - 1];
    assert HeaderOf(l).value == HeaderOf(shorter).value + f.text;
  }

  lemma {:induction false} ReachLine(c: Config, l: Line)
    requires Valid(c) && c.state == LineStart && LineOk(l)
    ensures Reaches(c, RenderLine(l), WithHeaders(c, LineEnd(l), [HeaderOf(l)]))
    decreases |l.folds|
  {
    if l.folds == [] {
      ReachFirstLine(c, l);
    } else {
      var f := l.folds[|l.folds| - 1];
      var shorter := l.(folds := l.folds[..|l.folds| - 1]);
      ReachLine(c, shorter);
      var c1 := WithHeaders(c, LineEnd(shorter), [HeaderOf(shorter)]);
      ReachFold(c1, f);
      FoldAdded(c.req.headers, l);
      Then(c, RenderLine(shorter), c1, "\r\n" + f.blanks + f.text, WithHeaders(c, LineEnd(l), [HeaderOf(l)]));
    }
  }

  lemma {:induction false} ReachLines(c: Config, ls: seq<Line>)
    requires Valid(c) && c.state == LineStart && LinesOk(ls)
    ensures Reaches(c, RenderLines(ls), WithHeaders(c, LineStart, HeadersOf(ls)))
    decreases |ls|
  {
    if ls == [] {
      assert c.req.headers + [] == c.req.headers;
    } else {
      var k := |ls| - 1;
      ReachLines(c, ls[..k]);
      var s := RenderLines(ls[..k]);
      var c1 := WithHeaders(c, LineStart, HeadersOf(ls[..k]));
      ReachLine(c1, ls[k]);
      var c2 := WithHeaders(c1, LineEnd(ls[k]), [HeaderOf(ls[k])]);
      assert c2 == WithHeaders(c, LineEnd(ls[k]), HeadersOf(ls));
      Then(c, s, c1, RenderLine(ls[k]), c2);
      ReachLineBreak(c2);
      Then(c, s + RenderLine(ls[k]), c2, "\r\n", c2.(state := LineStart));
    }
  }

  // ----- the body -----

  lemma {:induction false} ReachBody(c: Config, s: string)
    requires c.state == ContentStart && c.req.content == "" && !Contains(s, SENTINEL)
    ensures Reaches(c, s, c.(req := c.req.(content := s)))
    decreases |s|
  {
    if s != "" {
      var k := |s| - 1;
      PrefixHasNoSentinel(s, k);
      ReachBody(c, s[..k]);
      assert s[..k] + [s[k]] == s;
      SentinelOnlyAtEnd(s[..k], s[k]);
      ThenByte(c, s[..k], c.(req := c.req.(content := s[..k])), s[k]);
    }
  }

  lemma SentinelNotYet(body: string)
    requires !Contains(body, SENTINEL)
    ensures !Contains(body + "EOF", SENTINEL)
  {
    var s := body + "EOF";
    forall i | 0 <= i <= |s|
      ensures !OccursAt(s, SENTINEL, i)
    {
      if i + 4 <= |s| {
        assert (body + SENTINEL)[i..i + 4] == s[i..i + 4];
        SentinelHasNoBorder(body, i);
      }
    }
  }

  /** After `a` without a verdict, the verdict on `a + b` is the one on `b`. */
  lemma ThenRun(c: Config, a: string, c1: Config, b: string, n: nat, c2: Config)
    requires Reaches(c, a, c1) && Run(c1, b) == Parsed(True, n, c2)
    ensures Run(c, a + b) == Parsed(True, |a| + n, c2)
  {
    RunConcat(c, a, b);
  }

  lemma AcceptBody(c: Config, body: string)
    requires c.state == ContentStart && c.req.content == "" && !Contains(body, SENTINEL)
    ensures Run(c, body + SENTINEL) ==
            Parsed(True, |body| + 4, c.(req := c.req.(content := body)))
  {
    SentinelNotYet(body);
    ReachBody(c, body + "EOF");
    AcceptFrom(c, body, c.(req := c.req.(content := body + "EOF")), c.(req := c.req.(content := body)));
  }

  lemma AcceptFrom(c: Config, body: string, c1: Config, c2: Config)
    requires Reaches(c, body + "EOF", c1)
    requires c1.state == ContentStart && c1.req.content == body + "EOF"
    requires c2 == c1.(req := c1.req.(content := body))
    ensures Run(c, body + SENTINEL) == Parsed(True, |body| + 4, c2)
  {
    AcceptSentinel(c1, body);
    ThenRun(c, body + "EOF", c1, "%", 1, c2);
    assert body + "EOF" + "%" == body + SENTINEL;
  }

  lemma AcceptSentinel(c: Config, body: string)
    requires Valid(c) && c.state == ContentStart && c.req.content == body + "EOF"
    ensures Run(c, "%") == Parsed(True, 1, c.(req := c.req.(content := body)))
  {
    var content := c.req.content + ['%'];
    assert content[|content| - 4..] == SENTINEL && content[..|content| - 4] == body;
  }

  lemma ReachHead(c: Config, m: Message)
    requires Fresh(c) && WellFormed(m)
    ensures Reaches(c, Head(m), Config(ContentStart, Meaning(m).(content := "")))
  {
    ReachRequestLine(c, m);
    var c1 := AfterRequestLine(c, m);
    ReachLines(c1, m.lines);
    var c2 := WithHeaders(c1, LineStart, HeadersOf(m.lines));
    assert c2.req.headers == HeadersOf(m.lines);
    Then(c, RequestLine(m), c1, RenderLines(m.lines), c2);
    ReachEmptyLine(c2);
    Then(c, RequestLine(m) + RenderLines(m.lines), c2, "\r\n", c2.(state := ContentStart));
  }

  lemma ReachEmptyLine(c: Config)
    requires Valid(c) && c.state == LineStart
    ensures Reaches(c, "\r\n", c.(state := ContentStart))
  {
    assert "" + "\r" == "\r" && "\r" + "\n" == "\r\n";
    ThenByte(c, "", c, '\r');
    ThenByte(c, "\r", c.(state := Newline3), '\n');
  }

  /** Completeness: a well-formed message is accepted at its very last byte, with its meaning. */
  lemma Completeness(c: Config, m: Message)
    requires Fresh(c) && WellFormed(m)
    ensures Run(c, Render(m)) == Parsed(True, |Render(m)|, Config(ContentStart, Meaning(m)))
  {
    ReachHead(c, m);
    var c1 := Config(ContentStart, Meaning(m).(content := ""));
    AcceptBody(c1, m.body);
    ThenRun(c, Head(m), c1, m.body + SENTINEL, |m.body| + 4, Config(ContentStart, Meaning(m)));
    assert Head(m) + (m.body + SENTINEL) == Render(m);
  }
}
