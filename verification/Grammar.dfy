/** A declarative grammar of requests, independent of the state machine. */
module Grammar {
  import opened Text
  import opened Wire

  /** A continuation line: CR LF, at least one blank, then text. */
  datatype Fold = Fold(blanks: string, text: string)

  datatype Line = Line(name: string, value: string, folds: seq<Fold>)

  datatype Message = Message(
    verb: string, uri: string, major: string, minor: string, lines: seq<Line>, body: string)

  predicate AllToken(s: string) { forall i :: 0 <= i < |s| ==> TokenChar(s[i]) }

  predicate AllText(s: string) { forall i :: 0 <= i < |s| ==> TextChar(s[i]) }

  predicate AllDigits(s: string) { forall i :: 0 <= i < |s| ==> IsDigit(s[i]) }

  predicate AllBlank(s: string) { forall i :: 0 <= i < |s| ==> Blank(s[i]) }

  predicate FoldOk(f: Fold) {
    && f.blanks != "" && AllBlank(f.blanks)
    && AllText(f.text) && (f.text != "" ==> f.text[0] != ' ')
  }

  predicate LineOk(l: Line) {
    && l.name != "" && AllToken(l.name) && AllText(l.value)
    && forall i :: 0 <= i < |l.folds| ==> FoldOk(l.folds[i])
  }

  predicate LinesOk(ls: seq<Line>) { forall i :: 0 <= i < |ls| ==> LineOk(ls[i]) }

  predicate WellFormed(m: Message) {
    && m.verb != "" && AllToken(m.verb)
    && AllText(m.uri)
    && m.major != "" && AllDigits(m.major)
    && m.minor != "" && AllDigits(m.minor)
    && LinesOk(m.lines)
    && !Contains(m.body, SENTINEL)
  }

  // ----- concrete syntax -----

  function RenderFolds(fs: seq<Fold>): string {
    if fs == [] then ""
    else
      var f := fs[|fs| - 1];
      RenderFolds(fs[..|fs| - 1]) + ("\r\n" + f.blanks + f.text)
  }

  /** A header line without its final CR LF. */
  function RenderLine(l: Line): string {
    l.name + ": " + l.value + RenderFolds(l.folds)
  }

  function RenderLines(ls: seq<Line>): string {
    if ls == [] then ""
    else RenderLines(ls[..|ls| - 1]) + RenderLine(ls[|ls| - 1]) + "\r\n"
  }

  function Target(m: Message): string { m.verb + " " + m.uri }

  function RequestLine(m: Message): string {
    Target(m) + "?HTTP/" + m.major + "." + m.minor + "\r\n"
  }

  function Head(m: Message): string {
    RequestLine(m) + RenderLines(m.lines) + "\r\n"
  }

  function Render(m: Message): string {
    Head(m) + m.body + SENTINEL
  }

  // ----- meaning -----

  /** The decimal value of a digit string, continuing from `acc`. */
  function Decimal(acc: int, s: string): int {
    if s == "" then acc
    else Decimal(acc, s[..|s| - 1]) * 10 + DigitValue(s[|s| - 1])
  }

  function FoldTexts(fs: seq<Fold>): string {
    if fs == [] then "" else FoldTexts(fs[..|fs| - 1]) + fs[|fs| - 1].text
  }

  /** A folded value is the pieces joined without their leading blanks. */
  function HeaderOf(l: Line): Header { Header(l.name, l.value + FoldTexts(l.folds)) }

  function HeadersOf(ls: seq<Line>): (hs: seq<Header>)
    ensures |hs| == |ls|
    ensures forall i :: 0 <= i < |ls| ==> hs[i] == HeaderOf(ls[i])
  {
    if ls == [] then [] else HeadersOf(ls[..|ls| - 1]) + [HeaderOf(ls[|ls| - 1])]
  }

  function Meaning(m: Message): RequestValue {
    RequestValue(m.verb, m.uri, Decimal(0, m.major), Decimal(0, m.minor), HeadersOf(m.lines), m.body)
  }
}
