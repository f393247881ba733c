/** Whatever the parser has swallowed is the beginning of a well-formed message. */
module GrammarSoundness {
  import opened Text
  import opened Wire
  import opened Grammar

  /** How far into a message a parser state is. */
  function Stage(st: State): nat {
    match st
    case MethodStart => 0
    case InMethod => 1
    case InUri => 2
    case VersionH => 3
    case VersionT1 => 3
    case VersionT2 => 3
    case VersionP => 3
    case VersionSlash => 3
    case MajorStart => 4
    case Major => 5
    case MinorStart => 6
    case Minor => 7
    case Newline1 => 8
    case Newline3 => 10
    case ContentStart => 11
    case _ => 9
  }

  /** A message under construction: the parts not reached yet are empty. */
  predicate DraftOk(st: State, m: Message) {
    && !Dead(st)
    && PartsOk(Stage(st), m)
    && (NeedsHeader(st) ==> m.lines != [] && OpenOk(st, m.lines[|m.lines| - 1]))
  }

  predicate PartsOk(stage: nat, m: Message) {
    && (if stage < 1 then m.verb == "" else m.verb != "" && AllToken(m.verb))
    && (if stage < 2 then m.uri == "" else AllText(m.uri))
    && (if stage < 5 then m.major == "" else m.major != "" && AllDigits(m.major))
    && (if stage < 7 then m.minor == "" else m.minor != "" && AllDigits(m.minor))
    && (if stage < 9 then m.lines == [] else LinesOk(m.lines))
    && (if stage < 11 then m.body == "" else !Contains(m.body, SENTINEL))
  }

  predicate OpenOk(st: State, l: Line) {
    match st
    case Name => l.value == "" && l.folds == []
    case SpaceBeforeValue => l.value == "" && l.folds == []
    case Value => l.folds != [] ==> l.folds[|l.folds| - 1].text != ""
    case Lws => l.folds != [] && l.folds[|l.folds| - 1].text == ""
    case _ => true
  }

  /** The bytes read so far. */
  function Shown(st: State, m: Message): string
    requires NeedsHeader(st) ==> m.lines != []
  {
    match st
    case MethodStart => ""
    case InMethod => m.verb
    case InUri => Target(m)
    case VersionH => Target(m) + "?"
    case VersionT1 => Target(m) + "?H"
    case VersionT2 => Target(m) + "?HT"
    case VersionP => Target(m) + "?HTT"
    case VersionSlash => Target(m) + "?HTTP"
    case MajorStart => Target(m) + "?HTTP/"
    case Major => Target(m) + "?HTTP/" + m.major
    case MinorStart => Target(m) + "?HTTP/" + m.major + "."
    case Minor => Target(m) + "?HTTP/" + m.major + "." + m.minor
    case Newline1 => Target(m) + "?HTTP/" + m.major + "." + m.minor + "\r"
    case LineStart => RequestLine(m) + RenderLines(m.lines)
    case Name => Before(m) + Last(m).name
    case SpaceBeforeValue => Before(m) + (Last(m).name + ":")
    case Value => Before(m) + RenderLine(Last(m))
    case Lws => Before(m) + RenderLine(Last(m))
    case Newline2 => Before(m) + RenderLine(Last(m)) + "\r"
    case Newline3 => RequestLine(m) + RenderLines(m.lines) + "\r"
    case ContentStart => Head(m) + m.body
    case _ => ""
  }

  function Last(m: Message): Line
    requires m.lines != []
  {
    m.lines[|m.lines| - 1]
  }

  /** Everything before the last line. */
  function Before(m: Message): string
    requires m.lines != []
  {
    RequestLine(m) + RenderLines(m.lines[..|m.lines| - 1])
  }

  /** The parser's fields are the meaning of the draft; version numbers only once they are read. */
  predicate Tracks(c: Config, m: Message) {
    && c.req.verb == m.verb && c.req.uri == m.uri
    && (Stage(c.state) >= 4 ==> c.req.major == Decimal(0, m.major) && c.req.minor == Decimal(0, m.minor))
    && c.req.headers == HeadersOf(m.lines)
    && c.req.content == m.body
  }

  /** The draft after one more byte that gave no verdict. */
  function Extend(st: State, m: Message, b: char): Message
    requires NeedsHeader(st) ==> m.lines != []
  {
    match st
    case MethodStart => m.(verb := m.verb + [b])
    case InMethod => if b == ' ' then m else m.(verb := m.verb + [b])
    case InUri => if b == '?' then m else m.(uri := m.uri + [b])
    case MajorStart => m.(major := m.major + [b])
    case Major => if b == '.' then m else m.(major := m.major + [b])
    case MinorStart => m.(minor := m.minor + [b])
    case Minor => if b == '\r' then m else m.(minor := m.minor + [b])
    case LineStart =>
      if b == '\r' then m
      else if m.lines != [] && Blank(b) then
        WithLast(m, Last(m).(folds := Last(m).folds + [Fold([b], "")]))
      else m.(lines := m.lines + [Line([b], "", [])])
    case Name =>
      if b == ':' then m else WithLast(m, Last(m).(name := Last(m).name + [b]))
    case Value =>
      if b == '\r' then m else WithLast(m, ExtendText(Last(m), b))
    case Lws =>
      if b == '\r' then m
      else if Blank(b) then WithLast(m, ExtendBlanks(Last(m), b))
      else WithLast(m, ExtendText(Last(m), b))
    case ContentStart => m.(body := m.body + [b])
    case _ => m
  }

  function WithLast(m: Message, l: Line): Message
    requires m.lines != []
  {
    m.(lines := m.lines[..|m.lines| - 1] + [l])
  }

  function ExtendText(l: Line, b: char): Line {
    if l.folds == [] then l.(value := l.value + [b])
    else
      var k := |l.folds| - 1;
      l.(folds := l.folds[..k] + [l.folds[k].(text := l.folds[k].text + [b])])
  }

  function ExtendBlanks(l: Line, b: char): Line {
    if l.folds == [] then l
    else
      var k := |l.folds| - 1;
      l.(folds := l.folds[..k] + [l.folds[k].(blanks := l.folds[k].blanks + [b])])
  }

  // ----- one byte keeps the draft in step -----

  /** `m'` is a sound draft for the configuration reached by one more byte. */
  predicate InStep(c: Config, m: Message, b: char, c': Config, m': Message)
    requires DraftOk(c.state, m)
  {
    && DraftOk(c'.state, m') && Tracks(c', m')
    && Shown(c'.state, m') == Shown(c.state, m) + [b]
  }

  lemma DecimalByte(s: string, b: char)
    ensures Decimal(0, s + [b]) == Decimal(0, s) * 10 + DigitValue(b)
  {
    assert (s + [b])[..|s|] == s;
  }

  lemma StepTarget(c: Config, m: Message, b: char)
    requires Valid(c) && DraftOk(c.state, m) && Tracks(c, m)
    requires (c.state == MethodStart || c.state == InMethod || c.state == InUri)
    requires Step(c, b).verdict.Indeterminate?
    ensures InStep(c, m, b, Step(c, b).config, Extend(c.state, m, b))
  {
    ShownTarget(c, m, b);
  }

  lemma StepLiteral(c: Config, m: Message, b: char)
    requires Valid(c) && DraftOk(c.state, m) && Tracks(c, m)
    requires Stage(c.state) == 3 || c.state == Newline1
    requires Step(c, b).verdict.Indeterminate?
    ensures InStep(c, m, b, Step(c, b).config, Extend(c.state, m, b))
  {
    ShownLiteral(c, m, b);
  }

  lemma MajorNext(c: Config, b: char)
    requires Valid(c) && (c.state == MajorStart || c.state == Major)
    ensures var r := Step(c, b);
            r.verdict.Indeterminate? ==>
              if c.state == Major && b == '.' then r.config == c.(state := MinorStart)
              else IsDigit(b) && r.config == Config(Major, c.req.(major := c.req.major * 10 + DigitValue(b)))
  {
  }

  lemma MajorShown(st: State, m: Message, b: char)
    requires (st == MajorStart && m.major == "") || st == Major
    ensures Shown(Major, m.(major := m.major + [b])) == Shown(st, m) + [b]
  {
    var t := Target(m) + "?HTTP/";
    assert Target(m.(major := m.major + [b])) == Target(m);
    assert t + (m.major + [b]) == t + m.major + [b];
    assert t + "" == t;
  }

  lemma MajorDigit(c: Config, m: Message, b: char)
    requires DraftOk(c.state, m) && Tracks(c, m) && IsDigit(b)
    requires c.state == MajorStart || c.state == Major
    ensures InStep(c, m, b, Config(Major, c.req.(major := c.req.major * 10 + DigitValue(b))),
                   m.(major := m.major + [b]))
  {
    DecimalByte(m.major, b);
    MajorShown(c.state, m, b);
    MajorDraftOk(c.state, m, b);
  }

  lemma MajorDraftOk(st: State, m: Message, b: char)
    requires DraftOk(st, m) && (st == MajorStart || st == Major) && IsDigit(b)
    ensures DraftOk(Major, m.(major := m.major + [b]))
  {
  }

  lemma StepMajor(c: Config, m: Message, b: char)
    requires Valid(c) && DraftOk(c.state, m) && Tracks(c, m)
    requires (c.state == MajorStart || c.state == Major)
    requires Step(c, b).verdict.Indeterminate?
    ensures InStep(c, m, b, Step(c, b).config, Extend(c.state, m, b))
  {
    MajorNext(c, b);
    if c.state == MajorStart || b != '.' {
      MajorDigit(c, m, b);
    }
  }

  lemma StepMinor(c: Config, m: Message, b: char)
    requires Valid(c) && DraftOk(c.state, m) && Tracks(c, m)
    requires (c.state == MinorStart || c.state == Minor)
    requires Step(c, b).verdict.Indeterminate?
    ensures InStep(c, m, b, Step(c, b).config, Extend(c.state, m, b))
  {
    DecimalByte(m.minor, b);
    var s := Target(m) + "?HTTP/" + m.major + ".";
    assert s + (m.minor + [b]) == s + m.minor + [b];
    assert s + "" == s;
  }

  lemma ShownTarget(c: Config, m: Message, b: char)
    requires Valid(c) && DraftOk(c.state, m) && Tracks(c, m)
    requires (c.state == MethodStart || c.state == InMethod || c.state == InUri) && Step(c, b).verdict.Indeterminate?
    ensures Shown(Step(c, b).config.state, Extend(c.state, m, b)) == Shown(c.state, m) + [b]
  {
    match c.state
    case InMethod => assert b == ' ' ==> Target(m) == m.verb + [b] + m.uri;
    case InUri => assert b != '?' ==> m.verb + " " + (m.uri + [b]) == Target(m) + [b];
    case _ =>
  }

  lemma ShownLiteral(c: Config, m: Message, b: char)
    requires Valid(c) && DraftOk(c.state, m) && Tracks(c, m)
    requires (Stage(c.state) == 3 || c.state == Newline1) && Step(c, b).verdict.Indeterminate?
    ensures Shown(Step(c, b).config.state, m) == Shown(c.state, m) + [b]
  {
    match c.state
    case VersionH => assert Target(m) + "?H" == Target(m) + "?" + "H";
    case VersionT1 => assert Target(m) + "?HT" == Target(m) + "?H" + "T";
    case VersionT2 => assert Target(m) + "?HTT" == Target(m) + "?HT" + "T";
    case VersionP => assert Target(m) + "?HTTP" == Target(m) + "?HTT" + "P";
    case VersionSlash => assert Target(m) + "?HTTP/" == Target(m) + "?HTTP" + "/";
    case Newline1 =>
      var s := Target(m) + "?HTTP/" + m.major + "." + m.minor;
      assert s + "\r\n" == s + "\r" + "\n";
    case _ =>
  }

  /** Changing only the last line changes the headers and the text only at the end. */
  lemma LastLineChanged(m: Message, l: Line)
    requires m.lines != [] && LinesOk(m.lines) && LineOk(l)
    ensures var m' := WithLast(m, l);
            && m'.lines != [] && Last(m') == l && Before(m') == Before(m) && LinesOk(m'.lines)
            && HeadersOf(m'.lines) == HeadersOf(m.lines)[|m.lines| - 1 := HeaderOf(l)]
  {
    var k := |m.lines| - 1;
    var m' := WithLast(m, l);
    assert m'.lines[..k] == m.lines[..k];
  }

  lemma ExtendTextOk(l: Line, b: char)
    requires LineOk(l) && TextChar(b)
    requires b == ' ' ==> l.folds != [] ==> l.folds[|l.folds| - 1].text != ""
    ensures LineOk(ExtendText(l, b))
    ensures RenderLine(ExtendText(l, b)) == RenderLine(l) + [b]
    ensures HeaderOf(ExtendText(l, b)) == HeaderOf(l).(value := HeaderOf(l).value + [b])
  {
    var l' := ExtendText(l, b);
    if l.folds == [] {
      assert RenderFolds([]) == "" && FoldTexts([]) == "";
    } else {
      var k := |l.folds| - 1;
      var f := l.folds[k];
      assert l'.folds[..k] == l.folds[..k];
      assert "\r\n" + f.blanks + (f.text + [b]) == "\r\n" + f.blanks + f.text + [b];
      assert l.value + (FoldTexts(l.folds[..k]) + (f.text + [b])) ==
             l.value + (FoldTexts(l.folds[..k]) + f.text) + [b];
    }
  }

  lemma ExtendBlanksOk(l: Line, b: char)
    requires LineOk(l) && l.folds != [] && l.folds[|l.folds| - 1].text == "" && Blank(b)
    ensures LineOk(ExtendBlanks(l, b))
    ensures RenderLine(ExtendBlanks(l, b)) == RenderLine(l) + [b]
    ensures HeaderOf(ExtendBlanks(l, b)) == HeaderOf(l)
  {
    var l' := ExtendBlanks(l, b);
    var k := |l.folds| - 1;
    var f := l.folds[k];
    assert l'.folds[..k] == l.folds[..k];
    assert "\r\n" + (f.blanks + [b]) + "" == "\r\n" + f.blanks + "" + [b];
  }

  lemma NewFoldOk(l: Line, b: char)
    requires LineOk(l) && Blank(b)
    ensures var l' := l.(folds := l.folds + [Fold([b], "")]);
            && LineOk(l') && RenderLine(l') == RenderLine(l) + "\r\n" + [b]
            && HeaderOf(l') == HeaderOf(l)
  {
    var l' := l.(folds := l.folds + [Fold([b], "")]);
    assert l'.folds[..|l.folds|] == l.folds;
    assert "\r\n" + [b] + "" == "\r\n" + [b];
    assert FoldTexts(l.folds) + "" == FoldTexts(l.folds);
  }

  lemma NewFoldShown(m: Message, b: char)
    requires m.lines != [] && LinesOk(m.lines) && Blank(b)
    ensures var l := Last(m).(folds := Last(m).folds + [Fold([b], "")]);
            Before(m) + RenderLine(l) == RequestLine(m) + RenderLines(m.lines) + [b]
  {
    NewFoldOk(Last(m), b);
    var s := RenderLines(m.lines[..|m.lines| - 1]);
    assert RequestLine(m) + s + (RenderLine(Last(m)) + "\r\n" + [b]) ==
           RequestLine(m) + (s + RenderLine(Last(m)) + "\r\n") + [b];
  }

  lemma StepNewFold(c: Config, m: Message, b: char)
    requires Valid(c) && DraftOk(c.state, m) && Tracks(c, m)
    requires c.state == LineStart && b != '\r' && m.lines != [] && Blank(b)
    requires Step(c, b).verdict.Indeterminate?
    ensures InStep(c, m, b, Step(c, b).config, Extend(c.state, m, b))
  {
    var l := Last(m).(folds := Last(m).folds + [Fold([b], "")]);
    NewFoldOk(Last(m), b);
    NewFoldShown(m, b);
    LastLineChanged(m, l);
    assert Step(c, b).config == c.(state := Lws);
    assert Extend(c.state, m, b) == WithLast(m, l);
    LastDraftOk(LineStart, m, Lws, l);
  }

  lemma LineAdded(m: Message, b: char)
    requires LinesOk(m.lines) && TokenChar(b)
    ensures var m' := m.(lines := m.lines + [Line([b], "", [])]);
            && LinesOk(m'.lines) && Before(m') == RequestLine(m) + RenderLines(m.lines)
            && HeadersOf(m'.lines) == HeadersOf(m.lines) + [Header([b], "")]
  {
    var m' := m.(lines := m.lines + [Line([b], "", [])]);
    assert m'.lines[..|m.lines|] == m.lines;
    assert HeaderOf(Line([b], "", [])) == Header([b], "");
  }

  lemma NewLineNext(c: Config, b: char)
    requires Valid(c) && c.state == LineStart && b != '\r' && !(c.req.headers != [] && Blank(b))
    ensures var r := Step(c, b);
            r.verdict.Indeterminate? ==>
              TokenChar(b) && r.config == Config(Name, c.req.(headers := c.req.headers + [Header([b], "")]))
  {
  }

  lemma NewLineInStep(c: Config, m: Message, b: char)
    requires DraftOk(c.state, m) && Tracks(c, m) && c.state == LineStart && TokenChar(b)
    ensures InStep(c, m, b, Config(Name, c.req.(headers := c.req.headers + [Header([b], "")])),
                   m.(lines := m.lines + [Line([b], "", [])]))
  {
    LineAdded(m, b);
    NewLineShown(m, b);
    NewLineDraftOk(m, b);
  }

  lemma NewLineDraftOk(m: Message, b: char)
    requires DraftOk(LineStart, m) && TokenChar(b)
    ensures DraftOk(Name, m.(lines := m.lines + [Line([b], "", [])]))
  {
  }

  lemma NewLineShown(m: Message, b: char)
    ensures Shown(Name, m.(lines := m.lines + [Line([b], "", [])])) == Shown(LineStart, m) + [b]
  {
    var m' := m.(lines := m.lines + [Line([b], "", [])]);
    assert m'.lines[..|m'.lines| - 1] == m.lines;
    assert Before(m') == RequestLine(m) + RenderLines(m.lines);
  }

  lemma StepNewLine(c: Config, m: Message, b: char)
    requires Valid(c) && DraftOk(c.state, m) && Tracks(c, m)
    requires c.state == LineStart && b != '\r' && !(m.lines != [] && Blank(b))
    requires Step(c, b).verdict.Indeterminate?
    ensures InStep(c, m, b, Step(c, b).config, Extend(c.state, m, b))
  {
    NewLineNext(c, b);
    NewLineInStep(c, m, b);
  }

  lemma NameNext(c: Config, b: char)
    requires Valid(c) && c.state == Name && b != ':'
    ensures var r := Step(c, b);
            r.verdict.Indeterminate? ==>
              TokenChar(b) && r.config == Config(Name, c.req.(headers := AddName(c.req.headers, [b])))
  {
  }

  lemma NameInStep(c: Config, m: Message, b: char)
    requires Valid(c) && DraftOk(c.state, m) && Tracks(c, m) && c.state == Name && TokenChar(b)
    ensures InStep(c, m, b, Config(Name, c.req.(headers := AddName(c.req.headers, [b]))),
                   WithLast(m, Last(m).(name := Last(m).name + [b])))
  {
    var l := Last(m);
    LastLineChanged(m, l.(name := l.name + [b]));
    NameShown(m, b);
    NameDraftOk(m, b);
  }

  lemma NameShown(m: Message, b: char)
    requires m.lines != []
    ensures Shown(Name, WithLast(m, Last(m).(name := Last(m).name + [b]))) == Shown(Name, m) + [b]
  {
    var m' := WithLast(m, Last(m).(name := Last(m).name + [b]));
    assert m'.lines[..|m'.lines| - 1] == m.lines[..|m.lines| - 1];
    assert Before(m) + (Last(m).name + [b]) == Before(m) + Last(m).name + [b];
  }

  lemma NameDraftOk(m: Message, b: char)
    requires DraftOk(Name, m) && TokenChar(b)
    ensures DraftOk(Name, WithLast(m, Last(m).(name := Last(m).name + [b])))
  {
    LastLineChanged(m, Last(m).(name := Last(m).name + [b]));
  }

  lemma StepNameByte(c: Config, m: Message, b: char)
    requires Valid(c) && DraftOk(c.state, m) && Tracks(c, m)
    requires c.state == Name && b != ':'
    requires Step(c, b).verdict.Indeterminate?
    ensures InStep(c, m, b, Step(c, b).config, Extend(c.state, m, b))
  {
    NameNext(c, b);
    NameInStep(c, m, b);
  }

  lemma ColonNext(c: Config, b: char)
    requires Valid(c) && (c.state == SpaceBeforeValue || (c.state == Name && b == ':'))
    ensures var r := Step(c, b);
            r.verdict.Indeterminate? ==>
              if c.state == Name then r.config == c.(state := SpaceBeforeValue)
              else b == ' ' && r.config == c.(state := Value)
  {
  }

  lemma ColonShown(m: Message)
    requires m.lines != []
    ensures Shown(SpaceBeforeValue, m) == Shown(Name, m) + [':']
  {
    assert Before(m) + (Last(m).name + ":") == Before(m) + Last(m).name + ":";
  }

  lemma ColonInStep(c: Config, m: Message)
    requires DraftOk(c.state, m) && Tracks(c, m) && c.state == Name
    ensures InStep(c, m, ':', c.(state := SpaceBeforeValue), m)
  {
    ColonShown(m);
    MovedInStep(c, m, ':', SpaceBeforeValue);
  }

  lemma SpaceShown(m: Message)
    requires m.lines != [] && Last(m).value == "" && Last(m).folds == []
    ensures Shown(Value, m) == Shown(SpaceBeforeValue, m) + [' ']
  {
    var l := Last(m);
    assert RenderFolds([]) == "";
    assert RenderLine(l) == l.name + ":" + " ";
    assert Before(m) + (l.name + ":" + " ") == Before(m) + (l.name + ":") + " ";
  }

  lemma SpaceInStep(c: Config, m: Message)
    requires DraftOk(c.state, m) && Tracks(c, m) && c.state == SpaceBeforeValue
    ensures InStep(c, m, ' ', c.(state := Value), m)
  {
    SpaceShown(m);
    MovedInStep(c, m, ' ', Value);
  }

  lemma StepColon(c: Config, m: Message, b: char)
    requires Valid(c) && DraftOk(c.state, m) && Tracks(c, m)
    requires c.state == SpaceBeforeValue || (c.state == Name && b == ':')
    requires Step(c, b).verdict.Indeterminate?
    ensures InStep(c, m, b, Step(c, b).config, Extend(c.state, m, b))
  {
    ColonNext(c, b);
    if c.state == Name {
      ColonInStep(c, m);
    } else {
      SpaceInStep(c, m);
    }
  }

  lemma LastDraftOk(st: State, m: Message, st': State, l: Line)
    requires DraftOk(st, m) && m.lines != [] && (st == Value || st == Lws || st == LineStart)
    requires (st' == Value || st' == Lws) && LineOk(l) && OpenOk(st', l)
    ensures DraftOk(st', WithLast(m, l))
  {
    LastLineChanged(m, l);
  }

  /** A byte that only lengthens the last line. */
  lemma LastInStep(c: Config, m: Message, b: char, c': Config, l: Line)
    requires DraftOk(c.state, m) && Tracks(c, m)
    requires (c.state == Value || c.state == Lws) && (c'.state == Value || c'.state == Lws)
    requires LineOk(l) && OpenOk(c'.state, l) && RenderLine(l) == RenderLine(Last(m)) + [b]
    requires c'.req == c.req.(headers := c.req.headers[|m.lines| - 1 := HeaderOf(l)])
    ensures InStep(c, m, b, c', WithLast(m, l))
  {
    LastDraftOk(c.state, m, c'.state, l);
    LastShown(m, b, l);
    LastTracks(c, m, c', l);
  }

  lemma LastTracks(c: Config, m: Message, c': Config, l: Line)
    requires DraftOk(c.state, m) && Tracks(c, m)
    requires (c.state == Value || c.state == Lws) && (c'.state == Value || c'.state == Lws) && LineOk(l)
    requires c'.req == c.req.(headers := c.req.headers[|m.lines| - 1 := HeaderOf(l)])
    ensures Tracks(c', WithLast(m, l))
  {
    LastLineChanged(m, l);
  }

  lemma LastShown(m: Message, b: char, l: Line)
    requires m.lines != [] && RenderLine(l) == RenderLine(Last(m)) + [b]
    ensures Before(WithLast(m, l)) + RenderLine(Last(WithLast(m, l))) == Before(m) + RenderLine(Last(m)) + [b]
  {
    var m' := WithLast(m, l);
    assert Last(m') == l && m'.lines[..|m'.lines| - 1] == m.lines[..|m.lines| - 1];
    assert Before(m) + (RenderLine(Last(m)) + [b]) == Before(m) + RenderLine(Last(m)) + [b];
  }

  lemma StepValueByte(c: Config, m: Message, b: char)
    requires Valid(c) && DraftOk(c.state, m) && Tracks(c, m)
    requires (c.state == Value || c.state == Lws) && b != '\r' && !(c.state == Lws && Blank(b))
    requires Step(c, b).verdict.Indeterminate?
    ensures InStep(c, m, b, Step(c, b).config, Extend(c.state, m, b))
  {
    var l := ExtendText(Last(m), b);
    ExtendTextOk(Last(m), b);
    assert Step(c, b).config == Config(Value, c.req.(headers := AddValue(c.req.headers, [b])));
    LastInStep(c, m, b, Step(c, b).config, l);
  }

  lemma StepBlank(c: Config, m: Message, b: char)
    requires Valid(c) && DraftOk(c.state, m) && Tracks(c, m)
    requires c.state == Lws && Blank(b)
    requires Step(c, b).verdict.Indeterminate?
    ensures InStep(c, m, b, Step(c, b).config, Extend(c.state, m, b))
  {
    var l := ExtendBlanks(Last(m), b);
    ExtendBlanksOk(Last(m), b);
    assert Step(c, b).config == c;
    assert c.req.headers[|m.lines| - 1 := HeaderOf(l)] == c.req.headers;
    LastInStep(c, m, b, c, l);
  }

  lemma CarriageReturnNext(c: Config)
    requires Valid(c) && (c.state == LineStart || c.state == Value || c.state == Lws)
    ensures Step(c, '\r').config == c.(state := if c.state == LineStart then Newline3 else Newline2)
  {
  }

  /** A byte that changes neither the request nor the draft. */
  lemma MovedInStep(c: Config, m: Message, b: char, st: State)
    requires DraftOk(c.state, m) && Tracks(c, m) && DraftOk(st, m) && Stage(st) >= Stage(c.state) >= 4
    requires Shown(st, m) == Shown(c.state, m) + [b]
    ensures InStep(c, m, b, c.(state := st), m)
  {
  }

  lemma ReturnDraftOk(st: State, m: Message)
    requires DraftOk(st, m) && (st == LineStart || st == Value || st == Lws)
    ensures DraftOk(if st == LineStart then Newline3 else Newline2, m)
  {
  }

  lemma CarriageReturnInStep(c: Config, m: Message)
    requires DraftOk(c.state, m) && Tracks(c, m) && (c.state == LineStart || c.state == Value || c.state == Lws)
    ensures InStep(c, m, '\r', c.(state := if c.state == LineStart then Newline3 else Newline2), m)
  {
    ReturnDraftOk(c.state, m);
    MovedInStep(c, m, '\r', if c.state == LineStart then Newline3 else Newline2);
  }

  lemma StepCarriageReturn(c: Config, m: Message, b: char)
    requires Valid(c) && DraftOk(c.state, m) && Tracks(c, m)
    requires (c.state == LineStart || c.state == Value || c.state == Lws) && b == '\r'
    requires Step(c, b).verdict.Indeterminate?
    ensures InStep(c, m, b, Step(c, b).config, Extend(c.state, m, b))
  {
    CarriageReturnNext(c);
    CarriageReturnInStep(c, m);
  }

  lemma LineFeedNext(c: Config, b: char)
    requires Valid(c) && (c.state == Newline2 || c.state == Newline3)
    ensures var r := Step(c, b);
            r.verdict.Indeterminate? ==>
              b == '\n' && r.config == c.(state := if c.state == Newline2 then LineStart else ContentStart)
  {
  }

  lemma LineFeedShown(m: Message)
    requires m.lines != []
    ensures Shown(LineStart, m) == Shown(Newline2, m) + ['\n']
  {
    var s := Before(m) + RenderLine(Last(m));
    assert s + "\r\n" == s + "\r" + "\n";
    assert s + "\r\n" == RequestLine(m) + RenderLines(m.lines);
  }

  lemma LineFeedInStep(c: Config, m: Message)
    requires DraftOk(c.state, m) && Tracks(c, m) && c.state == Newline2
    ensures InStep(c, m, '\n', c.(state := LineStart), m)
  {
    LineFeedShown(m);
    MovedInStep(c, m, '\n', LineStart);
  }

  lemma StepLineFeed(c: Config, m: Message, b: char)
    requires Valid(c) && DraftOk(c.state, m) && Tracks(c, m)
    requires c.state == Newline2
    requires Step(c, b).verdict.Indeterminate?
    ensures InStep(c, m, b, Step(c, b).config, Extend(c.state, m, b))
  {
    LineFeedNext(c, b);
    LineFeedInStep(c, m);
  }

  lemma EndShown(m: Message)
    requires m.body == ""
    ensures Shown(ContentStart, m) == Shown(Newline3, m) + ['\n']
  {
    assert RequestLine(m) + RenderLines(m.lines) + "\r" + "\n" == Head(m);
  }

  lemma EndInStep(c: Config, m: Message)
    requires DraftOk(c.state, m) && Tracks(c, m) && c.state == Newline3
    ensures InStep(c, m, '\n', c.(state := ContentStart), m)
  {
    EndShown(m);
    MovedInStep(c, m, '\n', ContentStart);
  }

  lemma ContentNext(c: Config, b: char)
    requires Valid(c) && c.state == ContentStart
    ensures var r := Step(c, b);
            r.verdict.Indeterminate? ==>
              && r.config == Config(ContentStart, c.req.(content := c.req.content + [b]))
              && !Contains(c.req.content + [b], SENTINEL)
  {
    assert Valid(Step(c, b).config);
  }

  lemma ContentInStep(c: Config, m: Message, b: char)
    requires DraftOk(c.state, m) && Tracks(c, m) && c.state == ContentStart && !Contains(m.body + [b], SENTINEL)
    ensures InStep(c, m, b, Config(ContentStart, c.req.(content := c.req.content + [b])), m.(body := m.body + [b]))
  {
    assert Head(m.(body := m.body + [b])) == Head(m);
    assert Head(m) + (m.body + [b]) == Head(m) + m.body + [b];
  }

  lemma StepEnd(c: Config, m: Message, b: char)
    requires Valid(c) && DraftOk(c.state, m) && Tracks(c, m)
    requires (c.state == Newline3 || c.state == ContentStart) && Step(c, b).verdict.Indeterminate?
    ensures InStep(c, m, b, Step(c, b).config, Extend(c.state, m, b))
  {
    if c.state == Newline3 {
      LineFeedNext(c, b);
      EndInStep(c, m);
    } else {
      ContentNext(c, b);
      ContentInStep(c, m, b);
    }
  }

  lemma StepHeader(c: Config, m: Message, b: char)
    requires Valid(c) && DraftOk(c.state, m) && Tracks(c, m)
    requires (c.state == LineStart || c.state == Name || c.state == SpaceBeforeValue
              || c.state == Value || c.state == Lws || c.state == Newline2)
    requires Step(c, b).verdict.Indeterminate?
    ensures InStep(c, m, b, Step(c, b).config, Extend(c.state, m, b))
  {
    if c.state == Newline2 {
      StepLineFeed(c, m, b);
    } else if b == '\r' && (c.state == LineStart || c.state == Value || c.state == Lws) {
      StepCarriageReturn(c, m, b);
    } else if c.state == LineStart {
      if m.lines != [] && Blank(b) {
        StepNewFold(c, m, b);
      } else {
        StepNewLine(c, m, b);
      }
    } else if c.state == Name && b != ':' {
      StepNameByte(c, m, b);
    } else if (c.state == Name || c.state == SpaceBeforeValue) {
      StepColon(c, m, b);
    } else if c.state == Lws && Blank(b) {
      StepBlank(c, m, b);
    } else {
      StepValueByte(c, m, b);
    }
  }

  lemma StepInStep(c: Config, m: Message, b: char)
    requires Valid(c) && DraftOk(c.state, m) && Tracks(c, m)
    requires Step(c, b).verdict.Indeterminate?
    ensures InStep(c, m, b, Step(c, b).config, Extend(c.state, m, b))
  {
    if (c.state == MethodStart || c.state == InMethod || c.state == InUri) {
      StepTarget(c, m, b);
    } else if (c.state == MajorStart || c.state == Major) {
      StepMajor(c, m, b);
    } else if (c.state == MinorStart || c.state == Minor) {
      StepMinor(c, m, b);
    } else if Stage(c.state) < 9 {
      StepLiteral(c, m, b);
    } else if (c.state == Newline3 || c.state == ContentStart) {
      StepEnd(c, m, b);
    } else {
      StepHeader(c, m, b);
    }
  }

  lemma AcceptNext(c: Config, b: char)
    requires Valid(c) && Step(c, b).verdict.True? && !Dead(c.state)
    ensures c.state == ContentStart
    ensures var content := c.req.content + [b];
            && EndsWith(content, SENTINEL)
            && Step(c, b).config == c.(req := c.req.(content := content[..|content| - 4]))
  {
  }

  lemma AcceptedText(m: Message, b: char)
    requires EndsWith(m.body + [b], SENTINEL) && !Contains(m.body, SENTINEL)
    ensures var content := m.body + [b];
            var m' := m.(body := content[..|content| - 4]);
            Render(m') == Head(m) + m.body + [b] && !Contains(m'.body, SENTINEL)
  {
    var content := m.body + [b];
    var k := |content| - 4;
    PrefixHasNoSentinel(m.body, k);
    assert content[..k] == m.body[..k];
    assert content[..k] + SENTINEL == content;
    assert Head(m.(body := content[..k])) == Head(m);
    assert Head(m) + (content[..k] + SENTINEL) == Head(m) + m.body + [b];
  }

  /** An accepting byte completes the draft. */
  lemma StepAccepts(c: Config, m: Message, b: char) returns (m': Message)
    requires Valid(c) && DraftOk(c.state, m) && Tracks(c, m)
    requires Step(c, b).verdict.True?
    ensures WellFormed(m') && Render(m') == Shown(c.state, m) + [b]
    ensures Step(c, b).config == Config(ContentStart, Meaning(m'))
  {
    AcceptNext(c, b);
    AcceptedText(m, b);
    var content := m.body + [b];
    m' := m.(body := content[..|content| - 4]);
  }

  /** What `m'` says of a run over `s` that began with `shown` already read. */
  predicate Explains(shown: string, c: Config, s: string, m': Message)
    requires Valid(c)
  {
    var r := Run(c, s);
    match r.verdict
    case Indeterminate =>
      DraftOk(r.config.state, m') && Tracks(r.config, m') && Shown(r.config.state, m') == shown + s
    case True =>
      && WellFormed(m') && Render(m') == shown + s[..r.consumed]
      && r.config == Config(ContentStart, Meaning(m'))
    case False => true
  }

  lemma ShiftText(shown: string, s: string, k: nat)
    requires s != "" && k < |s|
    ensures shown + [s[0]] + s[1..] == shown + s
    ensures shown + [s[0]] + s[1..][..k] == shown + s[..k + 1]
  {
  }

  lemma ExplainsCons(shown: string, c: Config, s: string, m': Message)
    requires Valid(c) && s != "" && Step(c, s[0]).verdict.Indeterminate?
    requires Explains(shown + [s[0]], Step(c, s[0]).config, s[1..], m')
    ensures Explains(shown, c, s, m')
  {
    ShiftText(shown, s, if Run(c, s).verdict.True? then Run(c, s).consumed - 1 else 0);
  }

  /** Soundness over a byte string, from any draft. */
  lemma {:induction false} RunSound(c: Config, m: Message, s: string) returns (m': Message)
    requires Valid(c) && DraftOk(c.state, m) && Tracks(c, m)
    ensures Explains(Shown(c.state, m), c, s, m')
    decreases |s|
  {
    if s == "" {
      m' := m;
    } else {
      var st := Step(c, s[0]);
      if st.verdict.Indeterminate? {
        StepInStep(c, m, s[0]);
        m' := RunSound(st.config, Extend(c.state, m, s[0]), s[1..]);
        ExplainsCons(Shown(c.state, m), c, s, m');
      } else if st.verdict.True? {
        m' := StepAccepts(c, m, s[0]);
        assert s[..1] == [s[0]];
      } else {
        m' := m;
      }
    }
  }

  // ----- every draft can be finished -----

  function OrElse(s: string, default: string): string { if s == "" then default else s }

  /** A well-formed message that continues the draft. */
  function Complete(m: Message): Message {
    m.(verb := OrElse(m.verb, "A"), major := OrElse(m.major, "1"), minor := OrElse(m.minor, "1"))
  }

  lemma CompleteContinues(st: State, m: Message)
    requires DraftOk(st, m)
    ensures WellFormed(Complete(m))
    ensures Shown(st, m) < Render(Complete(m))
  {
    var m' := Complete(m);
    CompleteOk(st, m);
    if Stage(st) < 9 {
      RequestLineContinues(st, m);
    } else {
      assert m' == m;
      if NeedsHeader(st) {
        OpenLineContinues(st, m);
      } else if st == Newline3 {
        assert Head(m) == RequestLine(m) + RenderLines(m.lines) + "\r" + "\n";
      }
    }
    assert |Shown(st, m)| < |Render(m')|;
  }

  lemma CompleteOk(st: State, m: Message)
    requires DraftOk(st, m)
    ensures WellFormed(Complete(m))
  {
    assert AllToken("A") && AllDigits("1");
    assert !Contains("", SENTINEL);
  }

  lemma RequestLineContinues(st: State, m: Message)
    requires DraftOk(st, m) && Stage(st) < 9
    ensures Shown(st, m) <= RequestLine(Complete(m)) <= Render(Complete(m))
  {
    var m' := Complete(m);
    assert RequestLine(m') <= Head(m') <= Render(m');
  }

  lemma OpenLineContinues(st: State, m: Message)
    requires DraftOk(st, m) && NeedsHeader(st)
    ensures Shown(st, m) <= Head(m)
  {
    var whole := Before(m) + RenderLine(Last(m)) + "\r\n";
    assert whole == RequestLine(m) + RenderLines(m.lines);
    LineBegins(Before(m), Last(m));
  }

  lemma LineBegins(before: string, l: Line)
    ensures before + l.name <= before + (l.name + ":") <= before + RenderLine(l)
    ensures before + RenderLine(l) <= before + RenderLine(l) + "\r" <= before + RenderLine(l) + "\r\n"
  {
    assert RenderLine(l) == l.name + ":" + (" " + l.value + RenderFolds(l.folds));
    assert before + RenderLine(l) == before + (l.name + ":") + (" " + l.value + RenderFolds(l.folds));
    assert before + RenderLine(l) + "\r\n" == before + RenderLine(l) + "\r" + "\n";
  }
}
