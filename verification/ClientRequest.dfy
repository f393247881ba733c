/** The client's request text and its way through the server's parser. */
module ClientRequest {
  import opened Text
  import opened Wire
  import opened Grammar
  import opened ParserTheorems

  /** The arguments of the `client` constructor. */
  datatype Request = Request(
    server: string, path: string, auth: string, email: string,
    verb: string, length: string, contentType: string, content: string)

  /** The header fields, in the order they are printed. */
  function Fields(r: Request): seq<Header> {
    [ Header("Host", r.server), Header("Client", r.email), Header("Auth", r.auth),
      Header("Accept", "*/*"), Header("Connection", "close"),
      Header("Content-Length", r.length), Header("Content-Type", r.contentType) ]
  }

  function PrintField(h: Header): string { h.name + ": " + h.value + "\r\n" }

  function PrintFields(hs: seq<Header>): string {
    if hs == [] then "" else PrintFields(hs[..|hs| - 1]) + PrintField(hs[|hs| - 1])
  }

  function PrintStart(r: Request): string { r.verb + " " + r.path + "?HTTP/1.1\r\n" }

  /** The text put on the wire. */
  function Print(r: Request): string {
    PrintStart(r) + PrintFields(Fields(r)) + "\r\n" + r.content + "EOF%\n"
  }

  /** The text `begun` is a start line and the first `i` fields. */
  ghost predicate Begun(r: Request, i: nat, begun: string) {
    i <= 7 && begun == PrintStart(r) + PrintFields(Fields(r)[..i])
  }

  lemma NextField(r: Request, i: nat, begun: string, field: string)
    requires i < 7 && Begun(r, i, begun) && field == PrintField(Fields(r)[i])
    ensures Begun(r, i + 1, begun + field)
  {
    var hs := Fields(r);
    assert hs[..i + 1][..i] == hs[..i];
    assert begun + field == PrintStart(r) + (PrintFields(hs[..i]) + field);
  }

  lemma FieldText(name: string, value: string, tag: string)
    requires tag == name + ": "
    ensures tag + value + "\r\n" == PrintField(Header(name, value))
  {
  }

  lemma FixedFields()
    ensures "Accept: */*\r\n" == PrintField(Header("Accept", "*/*"))
    ensures "Connection: close\r\n" == PrintField(Header("Connection", "close"))
  {
  }

  /** The seven headers of a request, by name and value. */
  predicate SevenHeaders(r: Request, hs: seq<Header>) {
    && |hs| == 7
    && hs[0] == Header("Host", r.server) && hs[1] == Header("Client", r.email)
    && hs[2] == Header("Auth", r.auth) && hs[3] == Header("Accept", "*/*")
    && hs[4] == Header("Connection", "close") && hs[5] == Header("Content-Length", r.length)
    && hs[6] == Header("Content-Type", r.contentType)
  }

  /** The text of a request, line by line. */
  ghost predicate SevenLines(r: Request, s: string) {
    s == r.verb + " " + r.path + "?HTTP/1.1\r\n"
         + ("Host: " + r.server + "\r\n") + ("Client: " + r.email + "\r\n") + ("Auth: " + r.auth + "\r\n")
         + "Accept: */*\r\n" + "Connection: close\r\n"
         + ("Content-Length: " + r.length + "\r\n") + ("Content-Type: " + r.contentType + "\r\n")
         + "\r\n" + r.content + "EOF%\n"
  }

  lemma SevenFields(r: Request)
    ensures SevenHeaders(r, Fields(r))
  {
  }

  /** The constructor, which streams the request piece by piece; parsed, the stream yields the seven
      headers by name and value. */
  method FormRequest(r: Request) returns (stream: string)
    ensures stream == Print(r) && SevenLines(r, stream)
    ensures forall c :: Fresh(c) && HeadOk(r) ==> Valid(c) && SevenHeaders(r, Run(c, stream).config.req.headers)
  {
    forall c | Fresh(c) && HeadOk(r)
      ensures Valid(c) && SevenHeaders(r, Run(c, Print(r)).config.req.headers)
    {
      HeadersDelivered(c, r);
    }
    stream := r.verb + " " + r.path + "?HTTP/1.1\r\n";
    assert Begun(r, 0, stream);
    FieldText("Host", r.server, "Host: ");
    NextField(r, 0, stream, "Host: " + r.server + "\r\n");
    stream := stream + ("Host: " + r.server + "\r\n");
    FieldText("Client", r.email, "Client: ");
    NextField(r, 1, stream, "Client: " + r.email + "\r\n");
    stream := stream + ("Client: " + r.email + "\r\n");
    FieldText("Auth", r.auth, "Auth: ");
    NextField(r, 2, stream, "Auth: " + r.auth + "\r\n");
    stream := stream + ("Auth: " + r.auth + "\r\n");
    stream := FormRequestEnd(r, stream);
  }

  method FormRequestEnd(r: Request, begun: string) returns (stream: string)
    requires Begun(r, 3, begun)
    ensures stream == Print(r)
    ensures stream == begun + "Accept: */*\r\n" + "Connection: close\r\n"
                      + ("Content-Length: " + r.length + "\r\n") + ("Content-Type: " + r.contentType + "\r\n")
                      + "\r\n" + r.content + "EOF%\n"
  {
    FixedFields();
    NextField(r, 3, begun, "Accept: */*\r\n");
    stream := begun + "Accept: */*\r\n";
    NextField(r, 4, stream, "Connection: close\r\n");
    stream := stream + "Connection: close\r\n";
    FieldText("Content-Length", r.length, "Content-Length: ");
    NextField(r, 5, stream, "Content-Length: " + r.length + "\r\n");
    stream := stream + ("Content-Length: " + r.length + "\r\n");
    FieldText("Content-Type", r.contentType, "Content-Type: ");
    NextField(r, 6, stream, "Content-Type: " + r.contentType + "\r\n");
    stream := stream + ("Content-Type: " + r.contentType + "\r\n");
    assert Fields(r)[..7] == Fields(r);
    stream := stream + "\r\n";
    stream := stream + r.content + "EOF%\n";
  }

  /** The request the server should end up with. */
  function Received(r: Request, content: string): RequestValue {
    RequestValue(r.verb, r.path, 1, 1, Fields(r), content)
  }

  /** The fields that survive the request line and the headers. */
  predicate HeadOk(r: Request) {
    && r.verb != "" && AllToken(r.verb) && AllText(r.path)
    && AllText(r.server) && AllText(r.email) && AllText(r.auth)
    && AllText(r.length) && AllText(r.contentType)
  }

  function LinesOf(hs: seq<Header>): seq<Line> {
    if hs == [] then []
    else LinesOf(hs[..|hs| - 1]) + [Line(hs[|hs| - 1].name, hs[|hs| - 1].value, [])]
  }

  function MessageOf(r: Request): Message {
    Message(r.verb, r.path, "1", "1", LinesOf(Fields(r)), Framed(r.content))
  }

  predicate FieldsOk(hs: seq<Header>) {
    forall i :: 0 <= i < |hs| ==> hs[i].name != "" && AllToken(hs[i].name) && AllText(hs[i].value)
  }

  lemma {:induction false} FieldsAsLines(hs: seq<Header>)
    ensures RenderLines(LinesOf(hs)) == PrintFields(hs)
    ensures HeadersOf(LinesOf(hs)) == hs
    decreases |hs|
  {
    if hs != [] {
      var h := hs[|hs| - 1];
      var rest := hs[..|hs| - 1];
      FieldsAsLines(rest);
      var l := Line(h.name, h.value, []);
      assert LinesOf(hs)[..|LinesOf(rest)|] == LinesOf(rest);
      PlainLine(h);
      assert PrintFields(rest) + (RenderLine(l) + "\r\n") == PrintFields(rest) + RenderLine(l) + "\r\n";
    }
  }

  lemma {:induction false} FieldsMakeLines(hs: seq<Header>)
    requires FieldsOk(hs)
    ensures LinesOk(LinesOf(hs))
    decreases |hs|
  {
    if hs != [] {
      FieldsMakeLines(hs[..|hs| - 1]);
    }
  }

  lemma PlainLine(h: Header)
    ensures RenderLine(Line(h.name, h.value, [])) + "\r\n" == PrintField(h)
    ensures HeaderOf(Line(h.name, h.value, [])) == h
  {
    assert RenderFolds([]) == "" && FoldTexts([]) == "";
    assert h.value + "" == h.value;
  }

  lemma FieldNamesAreTokens()
    ensures AllToken("Host") && AllToken("Client") && AllToken("Auth") && AllToken("Accept")
    ensures AllToken("Connection") && AllText("*/*") && AllText("close")
  {
  }

  lemma ContentFieldNamesAreTokens()
    ensures AllToken("Content-Length") && AllToken("Content-Type")
  {
  }

  lemma FieldsAreOk(r: Request)
    requires HeadOk(r)
    ensures FieldsOk(Fields(r))
  {
    FieldNamesAreTokens();
    ContentFieldNamesAreTokens();
  }

  lemma VersionOneOne()
    ensures AllDigits("1") && Decimal(0, "1") == 1
  {
    assert "1"[..0] == "";
  }

  lemma PrintedHead(r: Request)
    ensures Head(MessageOf(r)) == PrintStart(r) + PrintFields(Fields(r)) + "\r\n"
  {
    FieldsAsLines(Fields(r));
    var s := r.verb + " " + r.path;
    assert s + "?HTTP/" + "1" + "." + "1" + "\r\n" == s + "?HTTP/1.1\r\n";
  }

  lemma PrintedMessage(r: Request)
    requires HeadOk(r)
    ensures WellFormed(MessageOf(r)) && Meaning(MessageOf(r)) == Received(r, Framed(r.content))
    ensures Print(r) == Head(MessageOf(r)) + r.content + "EOF%\n"
    ensures Render(MessageOf(r)) <= Print(r)
  {
    FramedSpec(r.content);
    FieldsAreOk(r);
    FieldsAsLines(Fields(r));
    FieldsMakeLines(Fields(r));
    VersionOneOne();
    PrintedHead(r);
    PrintedPrefix(Head(MessageOf(r)), r.content);
  }

  lemma PrintedPrefix(head: string, content: string)
    ensures head + Framed(content) + SENTINEL <= head + content + "EOF%\n"
  {
    FramedSpec(content);
    assert head + content + "EOF%\n" == head + (content + SENTINEL) + "\n";
    assert head + Framed(content) + SENTINEL == head + (Framed(content) + SENTINEL);
  }

  /** Framing: whatever the body, even one holding the sentinel, the printed request is
      accepted and delivers the bytes before the first sentinel of body + sentinel. */
  lemma FramedRoundTrip(c: Config, r: Request)
    requires Fresh(c) && HeadOk(r)
    ensures Valid(c)
    ensures Run(c, Print(r)).verdict == True
    ensures Run(c, Print(r)).config.req == Received(r, Framed(r.content))
    ensures Run(c, Print(r)).consumed == |Print(r)| - 1 - (|r.content| - |Framed(r.content)|)
  {
    PrintedMessage(r);
    MessageAccepted(c, MessageOf(r), Print(r));
  }

  lemma HeadersDelivered(c: Config, r: Request)
    requires Fresh(c) && HeadOk(r)
    ensures Valid(c) && SevenHeaders(r, Run(c, Print(r)).config.req.headers)
  {
    FramedRoundTrip(c, r);
    SevenFields(r);
  }

  /** The request comes back unchanged. */
  predicate Delivered(c: Config, r: Request)
    requires Valid(c)
  {
    var p := Run(c, Print(r));
    p.verdict == True && p.consumed == |Print(r)| - 1 && p.config.req == Received(r, r.content)
  }

  lemma {:induction false} FoldTextsText(l: Line)
    requires LineOk(l)
    ensures AllText(FoldTexts(l.folds))
    decreases |l.folds|
  {
    if l.folds != [] {
      FoldTextsText(l.(folds := l.folds[..|l.folds| - 1]));
    }
  }

  lemma HeaderIsText(m: Message, i: nat)
    requires WellFormed(m) && i < |m.lines|
    ensures AllText(Meaning(m).headers[i].value)
  {
    FoldTextsText(m.lines[i]);
  }

  /** An accepted request has a token verb, control-free fields and a sentinel-free body. */
  lemma AcceptedIsClean(m: Message, r: Request)
    requires WellFormed(m) && Meaning(m) == Received(r, r.content)
    ensures HeadOk(r) && !Contains(r.content, SENTINEL)
  {
    var hs := Meaning(m).headers;
    HeaderIsText(m, 0);
    HeaderIsText(m, 1);
    HeaderIsText(m, 2);
    HeaderIsText(m, 5);
    HeaderIsText(m, 6);
    assert hs[0].value == r.server && hs[1].value == r.email && hs[2].value == r.auth;
    assert hs[5].value == r.length && hs[6].value == r.contentType;
  }

  /** Round trip, with its exact condition: the fields come back as they were, and all but the
      last byte is consumed, if and only if the verb is a token, the path and header values
      hold no control byte and the body holds no sentinel. */
  lemma RoundTrip(c: Config, r: Request)
    requires Fresh(c) && Valid(c)
    ensures Delivered(c, r) <==> HeadOk(r) && !Contains(r.content, SENTINEL)
  {
    if HeadOk(r) && !Contains(r.content, SENTINEL) {
      FramedSpec(r.content);
      FramedRoundTrip(c, r);
    }
    if Delivered(c, r) {
      var m := VerdictExplained(c, Print(r));
      AcceptedIsClean(m, r);
    }
  }
}
