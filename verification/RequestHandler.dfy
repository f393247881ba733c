/** The server's request handler: login, path check, and the effect on the disk. */
module RequestHandler {
  import opened Text
  import opened Wire
  import opened FileTree
  import opened Store
  import RequestParser

  /** What the handler is given: the document root, the lines of the login file, the digest,
      the base-64 decoder and the reading of two characters as a hexadecimal number. */
  datatype Env = Env(
    docRoot: string, rows: seq<string>,
    hash: string -> string, decode64: string -> string, hexPair: (char, char) -> Option<char>)

  // ----- login -----

  function RowEmail(row: string): string {
    var comma := Find(row, ",");
    if comma == -1 then row else row[..comma]
  }

  function RowPassword(row: string): string {
    row[Find(row, ",") + 1..]
  }

  predicate Matches(env: Env, row: string, credentials: string) {
    env.decode64(credentials) == env.hash(RowEmail(row) + RowPassword(row))
  }

  /** Row `i` is the first one that matches. */
  predicate FirstMatch(env: Env, rows: seq<string>, credentials: string, i: nat) {
    && i < |rows| && Matches(env, rows[i], credentials)
    && forall j :: 0 <= j < i ==> !Matches(env, rows[j], credentials)
  }

  /** The email of the first row that matches. */
  function Login(env: Env, rows: seq<string>, credentials: string): (r: Option<string>)
    ensures r.None? <==> forall i :: 0 <= i < |rows| ==> !Matches(env, rows[i], credentials)
    ensures forall i: nat :: FirstMatch(env, rows, credentials, i) ==> r == Some(RowEmail(rows[i]))
  {
    if rows == [] then None
    else if Matches(env, rows[0], credentials) then Some(RowEmail(rows[0]))
    else
      assert forall i :: 0 < i < |rows| ==> rows[i] == rows[1..][i - 1];
      assert forall i: nat :: FirstMatch(env, rows, credentials, i) ==>
        i > 0 && FirstMatch(env, rows[1..], credentials, i - 1);
      Login(env, rows[1..], credentials)
  }

  /** The row opens the account `email`: it reads email, comma, password, and the credentials decode to
      the digest of email and password together; a row without a comma is both. */
  ghost predicate Opens(env: Env, row: string, credentials: string, email: string) {
    && ',' !in email
    && ((exists password :: row == email + "," + password
           && env.decode64(credentials) == env.hash(email + password))
        || (row == email && env.decode64(credentials) == env.hash(email + email)))
  }

  /** The account of the first row that opens one. */
  ghost predicate FirstOpens(env: Env, rows: seq<string>, credentials: string, email: string) {
    exists i :: 0 <= i < |rows| && Opens(env, rows[i], credentials, email)
                && forall j, e :: 0 <= j < i ==> !Opens(env, rows[j], credentials, e)
  }

  ghost predicate NoneOpens(env: Env, rows: seq<string>, credentials: string) {
    forall i, e :: 0 <= i < |rows| ==> !Opens(env, rows[i], credentials, e)
  }

  lemma CommaSplits(row: string, email: string, password: string)
    requires row == email + "," + password && ',' !in email
    ensures RowEmail(row) == email && RowPassword(row) == password
  {
    assert row[|email|..|email| + 1] == ",";
    assert OccursAt(row, ",", |email|);
    forall i | 0 <= i < |email|
      ensures !OccursAt(row, ",", i)
    {
      assert row[i..i + 1] == [email[i]];
    }
    assert Find(row, ",") == |email|;
  }

  lemma NoComma(row: string)
    requires ',' !in row
    ensures RowEmail(row) == row && RowPassword(row) == row
  {
    forall i | 0 <= i <= |row|
      ensures !OccursAt(row, ",", i)
    {
      if i + 1 <= |row| {
        assert row[i..i + 1] == [row[i]];
      }
    }
    assert Find(row, ",") == -1;
  }

  lemma CommaAt(row: string, i: nat)
    requires i < |row|
    ensures OccursAt(row, ",", i) <==> row[i] == ','
  {
    assert row[i..i + 1] == [row[i]];
  }

  lemma FirstComma(row: string)
    requires ',' in row
    ensures var k := Find(row, ","); 0 <= k < |row| && row[k] == ',' && ',' !in row[..k]
  {
    var i :| 0 <= i < |row| && row[i] == ',';
    CommaAt(row, i);
    var k := Find(row, ",");
    CommaAt(row, k);
    forall j | 0 <= j < k
      ensures row[j] != ','
    {
      CommaAt(row, j);
    }
  }

  lemma RowsSplit(row: string)
    requires ',' in row
    ensures row == RowEmail(row) + "," + RowPassword(row) && ',' !in RowEmail(row)
  {
    FirstComma(row);
    var k := Find(row, ",");
    assert row == row[..k] + [row[k]] + row[k + 1..];
  }

  lemma RowOpens(env: Env, row: string, credentials: string, email: string)
    ensures Opens(env, row, credentials, email) <==> Matches(env, row, credentials) && email == RowEmail(row)
  {
    if ',' !in row {
      NoComma(row);
      forall password
        ensures row != email + "," + password
      {
        assert (email + "," + password)[|email|] == ',';
      }
    } else {
      RowsSplit(row);
      forall password | row == email + "," + password && ',' !in email
        ensures RowEmail(row) == email && RowPassword(row) == password
      {
        CommaSplits(row, email, password);
      }
    }
  }

  /** Which credentials open which account, on the text of the rows: the login is the account of the
      first row that opens one, and there is none exactly when no row does. */
  lemma LoginOpens(env: Env, rows: seq<string>, credentials: string)
    ensures var r := Login(env, rows, credentials);
            if r.Some? then FirstOpens(env, rows, credentials, r.value) else NoneOpens(env, rows, credentials)
  {
    RowsOpen(env, rows, credentials);
    FirstMatchExists(env, rows, credentials);
    if Login(env, rows, credentials).Some? {
      var i: nat :| FirstMatch(env, rows, credentials, i);
      MatchOpens(env, rows, credentials, i);
    }
  }

  lemma RowsOpen(env: Env, rows: seq<string>, credentials: string)
    ensures (exists i, e :: 0 <= i < |rows| && Opens(env, rows[i], credentials, e)) <==>
            (exists i :: 0 <= i < |rows| && Matches(env, rows[i], credentials))
  {
    forall i, e | 0 <= i < |rows|
      ensures Opens(env, rows[i], credentials, e) <==> Matches(env, rows[i], credentials) && e == RowEmail(rows[i])
    {
      RowOpens(env, rows[i], credentials, e);
    }
    if i :| 0 <= i < |rows| && Matches(env, rows[i], credentials) {
      assert Opens(env, rows[i], credentials, RowEmail(rows[i]));
    }
  }

  lemma MatchOpens(env: Env, rows: seq<string>, credentials: string, i: nat)
    requires FirstMatch(env, rows, credentials, i)
    ensures FirstOpens(env, rows, credentials, RowEmail(rows[i]))
  {
    RowOpens(env, rows[i], credentials, RowEmail(rows[i]));
    forall j, e | 0 <= j < i
      ensures !Opens(env, rows[j], credentials, e)
    {
      RowOpens(env, rows[j], credentials, e);
    }
  }

  lemma {:induction false} FirstMatchExists(env: Env, rows: seq<string>, credentials: string)
    ensures (exists i :: 0 <= i < |rows| && Matches(env, rows[i], credentials)) ==>
              exists i: nat :: FirstMatch(env, rows, credentials, i)
    decreases |rows|
  {
    if rows != [] {
      var k := |rows| - 1;
      FirstMatchExists(env, rows[..k], credentials);
      if i: nat :| FirstMatch(env, rows[..k], credentials, i) {
        assert FirstMatch(env, rows, credentials, i);
      } else if Matches(env, rows[k], credentials) {
        assert forall j :: 0 <= j < k ==> rows[..k][j] == rows[j];
        assert FirstMatch(env, rows, credentials, k);
      } else {
        assert forall j :: 0 <= j < k ==> rows[..k][j] == rows[j];
      }
    }
  }

  /** The scan of the login file: each turn reads a line before it looks at the flag, so one
      more line is read after the match; the email is left alone by it. */
  method LoginScan(env: Env, credentials: string) returns (found: bool, email: string)
    ensures found == Login(env, env.rows, credentials).Some?
    ensures found ==> email == Login(env, env.rows, credentials).value
    ensures if found then FirstOpens(env, env.rows, credentials, email) else NoneOpens(env, env.rows, credentials)
  {
    found, email := false, "";
    var next := 0;
    while true
      invariant 0 <= next <= |env.rows|
      invariant if found
                then Login(env, env.rows, credentials) == Some(email)
                else Login(env, env.rows, credentials) == Login(env, env.rows[next..], credentials)
      decreases |env.rows| - next
    {
      if next == |env.rows| {
        break;
      }
      var line := env.rows[next];
      next := next + 1;
      if found {
        break;
      }
      email := RowEmail(line);
      var password := RowPassword(line);
      assert env.rows[next - 1..][1..] == env.rows[next..];
      if env.decode64(credentials) == env.hash(email + password) {
        found := true;
      }
    }
    LoginOpens(env, env.rows, credentials);
  }

  // ----- url decoding -----

  function Prepend(a: string, r: Option<string>): Option<string> {
    if r.None? then None else Some(a + r.value)
  }

  function UrlDecode(hexPair: (char, char) -> Option<char>, s: string): Option<string> {
    if s == "" then Some("")
    else if s[0] == '%' then
      if |s| < 3 then None
      else
        var value := hexPair(s[1], s[2]);
        if value.None? then None else Prepend([value.value], UrlDecode(hexPair, s[3..]))
    else
      Prepend([if s[0] == '+' then ' ' else s[0]], UrlDecode(hexPair, s[1..]))
  }

  lemma PrependTwice(a: string, b: string, r: Option<string>)
    ensures Prepend(a, Prepend(b, r)) == Prepend(a + b, r)
  {
    if r.Some? {
      assert a + (b + r.value) == a + b + r.value;
    }
  }

  /** What becomes of one byte or escape: a plus sign is a blank, an escape is the one byte its two
      characters stand for, in that order, and an escape that stands for none, or is cut short, fails,
      whatever follows. */
  lemma DecodeOne(hexPair: (char, char) -> Option<char>, b: char, x: char, y: char, rest: string)
    ensures UrlDecode(hexPair, "+") == Some(" ")
    ensures b != '%' && b != '+' ==> UrlDecode(hexPair, [b]) == Some([b])
    ensures hexPair(x, y).Some? ==> UrlDecode(hexPair, ['%', x, y]) == Some([hexPair(x, y).value])
    ensures hexPair(x, y).None? ==> UrlDecode(hexPair, ['%', x, y] + rest) == None
    ensures UrlDecode(hexPair, "%") == None && UrlDecode(hexPair, ['%', x]) == None
  {
    assert UrlDecode(hexPair, "") == Some("");
    assert " " + "" == " " && [b] + "" == [b];
    assert hexPair(x, y).Some? ==> [hexPair(x, y).value] + "" == [hexPair(x, y).value];
    assert "+"[1..] == "" && [b][1..] == "" && ['%', x, y][3..] == "";
    assert (['%', x, y] + rest)[0] == '%' && (['%', x, y] + rest)[1] == x && (['%', x, y] + rest)[2] == y;
  }

  /** The decoding loop, which appends to its output. */
  method DecodeUrl(env: Env, s: string) returns (ok: bool, out: string)
    ensures ok == UrlDecode(env.hexPair, s).Some?
    ensures ok ==> out == UrlDecode(env.hexPair, s).value
    ensures s == "+" ==> ok && out == " "
    ensures |s| == 3 && s[0] == '%' ==>
              var value := env.hexPair(s[1], s[2]); ok == value.Some? && (ok ==> out == [value.value])
    ensures 1 <= |s| <= 2 && s[0] == '%' ==> !ok
  {
    DecodeShort(env.hexPair, s);
    out := "";
    var i := 0;
    assert s[0..] == s;
    assert Prepend("", UrlDecode(env.hexPair, s)) == UrlDecode(env.hexPair, s) by {
      assert UrlDecode(env.hexPair, s).Some? ==>
        "" + UrlDecode(env.hexPair, s).value == UrlDecode(env.hexPair, s).value;
    }
    while i < |s|
      invariant 0 <= i <= |s|
      invariant UrlDecode(env.hexPair, s) == Prepend(out, UrlDecode(env.hexPair, s[i..]))
    {
      ghost var rest := s[i..];
      if s[i] == '%' {
        if i + 3 <= |s| {
          var value := env.hexPair(s[i + 1], s[i + 2]);
          if value.None? {
            return false, out;
          }
          assert rest[3..] == s[i + 3..];
          PrependTwice(out, [value.value], UrlDecode(env.hexPair, s[i + 3..]));
          out := out + [value.value];
          i := i + 2;
        } else {
          return false, out;
        }
      } else {
        assert rest[1..] == s[i + 1..];
        PrependTwice(out, [if s[i] == '+' then ' ' else s[i]], UrlDecode(env.hexPair, s[i + 1..]));
        if s[i] == '+' {
          out := out + [' '];
        } else {
          out := out + [s[i]];
        }
      }
      i := i + 1;
    }
    ok := true;
  }

  lemma DecodeShort(hexPair: (char, char) -> Option<char>, s: string)
    ensures s == "+" ==> UrlDecode(hexPair, s) == Some(" ")
    ensures |s| == 3 && s[0] == '%' ==>
              var value := hexPair(s[1], s[2]);
              UrlDecode(hexPair, s) == if value.None? then None else Some([value.value])
    ensures 1 <= |s| <= 2 && s[0] == '%' ==> UrlDecode(hexPair, s) == None
  {
    var x, y := if |s| > 1 then s[1] else ' ', if |s| > 2 then s[2] else ' ';
    DecodeOne(hexPair, ' ', x, y, "");
    if |s| == 3 && s[0] == '%' {
      assert s == ['%', x, y] && s == ['%', x, y] + "";
    } else if |s| == 2 && s[0] == '%' {
      assert s == ['%', x];
    } else if |s| == 1 && s[0] == '%' {
      assert s == "%";
    }
  }

  // ----- the effect of a request -----

  function FullPath(env: Env, email: string, path: string): string {
    env.docRoot + "/" + email + "/" + path
  }

  /** The directory of a file to be stored: everything before the last slash or backslash. */
  function DirTree(full: string): string {
    var last := LastOf(full, '\\', '/');
    if last == -1 then full else full[..last]
  }

  /** The request path is absolute and holds no "..". */
  predicate PathAllowed(path: string) {
    path != "" && path[0] == '/' && !Contains(path, "..")
  }

  /** POST without an extension: a missing header, an authentication probe, or (None) a
      directory to be made. */
  function ProbeOutcome(headers: seq<Header>): Option<Outcome> {
    if |headers| < 6 || (headers[5].value == "" && |headers| < 7) then Some(NoSuchHeader)
    else if headers[5].value == "" && headers[6].value == "" then Some(Reply(Accepted))
    else None
  }

  function PostDirectory(d: Tree, at: Path, headers: seq<Header>): Result {
    var probe := ProbeOutcome(headers);
    if probe.Some? then Result(probe.value, d) else MakeDirs(d, at)
  }

  /** One branch per method, for the path `at`; a file's directory is `dir`. */
  function PerformAt(hash: string -> string, d: Tree, at: Path, dir: Path, asFile: bool, req: RequestValue): Result {
    if req.verb == "GET" then Result(Compare(hash, d, at, req.content), d)
    else if req.verb == "POST" then
      if asFile then StoreFile(d, at, dir, req.content) else PostDirectory(d, at, req.headers)
    else if req.verb == "DELETE" then Delete(d, at)
    else Result(NoStatus, d)
  }

  function Perform(env: Env, d: Tree, email: string, path: string, req: RequestValue): Result {
    var full := FullPath(env, email, path);
    PerformAt(env.hash, d, Resolve(full), Resolve(DirTree(full)), Extension(path) != "", req)
  }

  /** The bytes a reply carries back: those of the file that was asked for. */
  function Body(d: Tree, at: Path, verb: string): string {
    if verb == "GET" && at in d then ContentOf(d[at]) else ""
  }

  function ReplyBody(env: Env, d: Tree, req: RequestValue): string {
    if |req.headers| < 3 then ""
    else
      var login, path := Login(env, env.rows, req.headers[2].value), UrlDecode(env.hexPair, req.uri);
      if login.None? || path.None? || !PathAllowed(path.value) then ""
      else Body(d, Resolve(FullPath(env, login.value, path.value)), req.verb)
  }

  function Handle(env: Env, d: Tree, req: RequestValue): Result {
    if |req.headers| < 3 then Result(NoSuchHeader, d)
    else
      var login := Login(env, env.rows, req.headers[2].value);
      if login.None? then Result(Reply(Unauthorized), d)
      else
        var path := UrlDecode(env.hexPair, req.uri);
        if path.None? || !PathAllowed(path.value) then Result(Reply(BadRequest), d)
        else Perform(env, d, login.value, path.value, req)
  }

  /** The handler with the disk it works on. */
  class RequestHandler {
    const env: Env
    var disk: Tree

    constructor (env: Env, disk: Tree)
      ensures this.env == env && this.disk == disk
    {
      this.env := env;
      this.disk := disk;
    }

    method HandleRequest(req: RequestParser.Request) returns (rep: Outcome, body: string)
      modifies this`disk
      ensures Result(rep, disk) == Handle(env, old(disk), req.Value())
      ensures body == ReplyBody(env, old(disk), req.Value())
    {
      body := "";
      if |req.headers| < 3 {
        return NoSuchHeader, body;
      }
      var found, email := LoginScan(env, req.headers[2].value);
      if !found {
        return Reply(Unauthorized), body;
      }
      var ok, path := DecodeUrl(env, req.uri);
      if !ok {
        return Reply(BadRequest), body;
      }
      if path == "" || path[0] != '/' || Find(path, "..") != -1 {
        return Reply(BadRequest), body;
      }
      rep, body := PerformRequest(email, path, req);
    }

    /** The part after login and path check: one branch per method. */
    method PerformRequest(email: string, path: string, req: RequestParser.Request)
      returns (rep: Outcome, body: string)
      modifies this`disk
      ensures Result(rep, disk) == Perform(env, old(disk), email, path, req.Value())
      ensures body == Body(old(disk), Resolve(FullPath(env, email, path)), req.verb)
      ensures var at := Resolve(FullPath(env, email, path));
              req.verb == "DELETE" ==>
                if at in old(disk)
                then rep == Reply(Accepted) && disk == map q | q in old(disk) && !(at <= q) :: old(disk)[q]
                else rep == Reply(NotFound) && disk == old(disk)
      ensures var at := Resolve(FullPath(env, email, path));
              req.verb == "GET" ==>
                && disk == old(disk)
                && rep == if at !in old(disk) then Reply(NotFound)
                          else if env.hash(body) == req.content then Reply(Accepted) else Reply(NotSync)
    {
      body := "";
      var fullPath := FullPath(env, email, path);
      var at := Resolve(fullPath);
      if req.verb == "GET" {
        if at !in disk {
          return Reply(NotFound), body;
        }
        body := ContentOf(disk[at]);
        var digest := env.hash(body);
        if digest == req.content {
          rep := Reply(Accepted);
        } else {
          rep := Reply(NotSync);
        }
      } else if req.verb == "POST" {
        if Extension(path) != "" {
          rep := ReplaceFile(fullPath, req.content);
        } else {
          rep := CreateDirectory(at, req.headers);
        }
      } else if req.verb == "DELETE" {
        if at in disk {
          disk := RemoveAll(disk, at);
          rep := Reply(Accepted);
        } else {
          rep := Reply(NotFound);
        }
      } else {
        rep := NoStatus;
      }
    }

    method ReplaceFile(fullPath: string, content: string) returns (rep: Outcome)
      modifies this`disk
      ensures Result(rep, disk) ==
              StoreFile(old(disk), Resolve(fullPath), Resolve(DirTree(fullPath)), content)
    {
      var at := Resolve(fullPath);
      if at in disk {
        disk := RemoveAll(disk, at);
      }
      var dirTree := Resolve(DirTree(fullPath));
      if Blocked(disk, dirTree) {
        return Fault;
      }
      disk := AddDirs(disk, dirTree);
      if CanWrite(disk, at) {
        disk := disk[at := File(content)];
        rep := Reply(Created);
      } else {
        rep := Reply(InternalError);
      }
    }

    method CreateDirectory(at: Path, headers: seq<Header>) returns (rep: Outcome)
      modifies this`disk
      ensures Result(rep, disk) == PostDirectory(old(disk), at, headers)
    {
      if |headers| < 6 {
        return NoSuchHeader;
      }
      if headers[5].value == "" {
        if |headers| < 7 {
          return NoSuchHeader;
        }
        if headers[6].value == "" {
          return Reply(Accepted);
        }
      }
      if Blocked(disk, at) {
        return Fault;
      }
      disk := AddDirs(disk, at);
      rep := Reply(Created);
    }
  }
}
