/** The request object and the state machine that fills it in, updated in place. */
module RequestParser {
  import opened Text
  import opened Wire

  /** `http::server3::request`; the version numbers start out arbitrary. */
  class Request {
    var verb: string
    var uri: string
    var major: int
    var minor: int
    var headers: seq<Header>
    var content: string

    function Value(): RequestValue
      reads this
    {
      RequestValue(verb, uri, major, minor, headers, content)
    }

    constructor ()
      ensures verb == "" && uri == "" && headers == [] && content == ""
    {
      verb, uri, headers, content := "", "", [], "";
    }

    method AddHeader(b: char)
      modifies this`headers
      ensures headers == old(headers) + [Header([b], "")]
    {
      headers := headers + [Header([b], "")];
    }

    method PushName(b: char)
      requires headers != []
      modifies this`headers
      ensures headers == AddName(old(headers), [b])
    {
      var last := headers[|headers| - 1];
      headers := headers[|headers| - 1 := last.(name := last.name + [b])];
    }

    method PushValue(b: char)
      requires headers != []
      modifies this`headers
      ensures headers == AddValue(old(headers), [b])
    {
      var last := headers[|headers| - 1];
      headers := headers[|headers| - 1 := last.(value := last.value + [b])];
    }
  }

  class RequestParser {
    var state: State

    constructor ()
      ensures state == MethodStart
    {
      state := MethodStart;
    }

    function Config(req: Request): Wire.Config
      reads this, req
    {
      Wire.Config(state, req.Value())
    }

    /** Handle the next byte of input; the sentinel is looked for in the whole content and
        erased in place. */
    method Consume(req: Request, input: char) returns (verdict: Tribool)
      requires Valid(Config(req))
      modifies this, req
      ensures Stepped(verdict, Config(req)) == Step(old(Config(req)), input)
      ensures old(state) == InUri && input != '?' ==>
                if input as int < 32 || input as int == 127 then verdict == False
                else verdict == Indeterminate && req.uri == old(req.uri) + [input]
    {
      match state {
      case MethodStart =>
        if !IsChar(input) || IsCtl(input) || IsTspecial(input) {
          return False;
        }
        state := InMethod;
        req.verb := req.verb + [input];
      case InMethod =>
        if input == ' ' {
          state := InUri;
        } else if !IsChar(input) || IsCtl(input) || IsTspecial(input) {
          return False;
        } else {
          req.verb := req.verb + [input];
        }
      case UriStart =>
        if IsCtl(input) {
          return False;
        }
        state := InUri;
        req.uri := req.uri + [input];
      case InUri =>
        if input == '?' {
          state := VersionH;
        } else if IsCtl(input) {
          return False;
        } else {
          req.uri := req.uri + [input];
        }
      case VersionH =>
        if input != 'H' { return False; }
        state := VersionT1;
      case VersionT1 =>
        if input != 'T' { return False; }
        state := VersionT2;
      case VersionT2 =>
        if input != 'T' { return False; }
        state := VersionP;
      case VersionP =>
        if input != 'P' { return False; }
        state := VersionSlash;
      case VersionSlash =>
        if input != '/' { return False; }
        req.major := 0;
        req.minor := 0;
        state := MajorStart;
      case MajorStart =>
        if !IsDigit(input) { return False; }
        req.major := req.major * 10 + input as int - '0' as int;
        state := Major;
      case Major =>
        if input == '.' {
          state := MinorStart;
        } else if IsDigit(input) {
          req.major := req.major * 10 + input as int - '0' as int;
        } else {
          return False;
        }
      case MinorStart =>
        if !IsDigit(input) { return False; }
        req.minor := req.minor * 10 + input as int - '0' as int;
        state := Minor;
      case Minor =>
        if input == '\r' {
          state := Newline1;
        } else if IsDigit(input) {
          req.minor := req.minor * 10 + input as int - '0' as int;
        } else {
          return False;
        }
      case Newline1 =>
        if input != '\n' { return False; }
        state := LineStart;
      case LineStart =>
        if input == '\r' {
          state := Newline3;
        } else if req.headers != [] && (input == ' ' || input == '\t') {
          state := Lws;
        } else if !IsChar(input) || IsCtl(input) || IsTspecial(input) {
          return False;
        } else {
          req.AddHeader(input);
          state := Name;
        }
      case Lws =>
        if input == '\r' {
          state := Newline2;
        } else if input == ' ' || input == '\t' {
          return Indeterminate;
        } else if IsCtl(input) {
          return False;
        } else {
          state := Value;
          req.PushValue(input);
        }
      case Name =>
        if input == ':' {
          state := SpaceBeforeValue;
        } else if !IsChar(input) || IsCtl(input) || IsTspecial(input) {
          return False;
        } else {
          req.PushName(input);
        }
      case SpaceBeforeValue =>
        if input != ' ' { return False; }
        state := Value;
      case Value =>
        if input == '\r' {
          state := Newline2;
        } else if IsCtl(input) {
          return False;
        } else {
          req.PushValue(input);
        }
      case Newline2 =>
        if input != '\n' { return False; }
        state := LineStart;
      case Newline3 =>
        if input != '\n' { return False; }
        state := ContentStart;
      case ContentStart =>
        SentinelOnlyAtEnd(req.content, input);
        req.content := req.content + [input];
        if Find(req.content, SENTINEL) != -1 {
          var at := Find(req.content, SENTINEL);
          req.content := req.content[..at] + req.content[at + 4..];
          return True;   // a non-zero enumerator, converted to tribool
        }
      case Newline4 =>
        return if input == '\n' then True else False;
      case _ =>
        return False;
      }
      return Indeterminate;
    }

    /** Parse some data: stop at the first definite verdict and say how much was consumed. */
    method Parse(req: Request, data: string) returns (verdict: Tribool, consumed: nat)
      requires Valid(Config(req))
      modifies this, req
      ensures Parsed(verdict, consumed, Config(req)) == Run(old(Config(req)), data)
    {
      consumed := 0;
      while consumed < |data|
        invariant consumed <= |data|
        invariant Valid(Config(req))
        invariant var rest := Run(Config(req), data[consumed..]);
                  Run(old(Config(req)), data) == rest.(consumed := consumed + rest.consumed)
      {
        assert data[consumed..][1..] == data[consumed + 1..];
        verdict := Consume(req, data[consumed]);
        consumed := consumed + 1;
        if verdict != Indeterminate {
          return;
        }
      }
      verdict := Indeterminate;
    }
  }
}
