# Remote backup: a verified model

Remote_Backup keeps a folder of one machine mirrored on a server. The client prints requests as
text in its own dialect of HTTP, the server parses them one byte at a time, authenticates them
against a file of logins, and compares, stores or removes files in one tree per user. A watcher on
the client turns local changes into requests; a pass called checksync repairs the server's tree
after an outage. This project models that chain and proves what it promises.

The project is checked with `dafny verify dfyconfig.toml` (Dafny 4.11).

## How the pieces fit

| file | what it holds |
|---|---|
| `Text.dfy` | byte strings, the library searches, the body sentinel `EOF%` |
| `Wire.dfy`, `RequestParser.dfy` | the parser as a function of one byte, a string, a list of chunks; the class that updates a request in place, proved equal to it |
| `Grammar.dfy` | a declarative grammar of requests: concrete syntax and meaning |
| `GrammarCompleteness.dfy`, `GrammarSoundness.dfy`, `ParserTheorems.dfy` | the parser decides the grammar: all three verdicts, and the byte at which each falls |
| `ClientRequest.dfy`, `WireBytes.dfy` | the client's printer and its round trip through the parser; the parser byte by byte, in character literals |
| `FileTree.dfy`, `Store.dfy` | path strings, the directory tree, and the operations on it |
| `RequestHandler.dfy`, `HandlerTheorems.dfy`, `HandlerAnswers.dfy` | login, path check, effect of a request; frame, invariants, errors; how each kind of request is answered |
| `Connection.dfy`, `ClientPaths.dfy`, `EndToEnd.dfy` | one connection over any chunks; which paths work in their own place; printing, chunks, parsing, decoding and handling composed |
| `FileWatcher.dfy` | the two-pass diff of the watcher |
| `Sync.dfy`, `BackupClient.dfy` | the client as a state machine over its history of connection attempts; the class that runs it in place |
| `SyncSteps.dfy`, `SyncOutages.dfy` | what a request and a checksync without outage do; exactly what a checksync leaves behind, whatever connects |
| `SyncHistory.dfy`, `SyncCounter.dfy` | an induction principle for runs and what it gives: the server's tree read off the history, what every run keeps whatever connects; the connection counter |
| `SyncEvents.dfy`, `SyncMirror.dfy` | one event of a scan, with a checksync and reconnect probes in the middle; the mirror invariant over all runs, exactly |
| `SyncLost.dfy`, `SyncMissing.dfy` | what a run can leave on the server, and what it can leave undone |
| `SyncAgain.dfy`, `SyncOrder.dfy`, `SyncExamples.dfy` | a second checksync; the order of requests; four runs that outages and probes spoil |
| `SyncOnWire.dfy`, `SyncUsers.dfy` | whole runs as exchanges of bytes: the model of the server is the user's tree on the disk, for one user and for many |

A byte is a Dafny `char`; codes from 128 up stand for the negative values of a signed `char`, which
the source treats as neither characters nor control bytes. `npos` is -1. The digest, the base-64
decoder, the table of media types and the reading of two characters as a hexadecimal number are
function parameters about which nothing is assumed except where a lemma says so. The disk is a map
from paths (sequences of names) to directories and files. The state machine of the client is run by
a `World`: the tree that stands still during a turn of the main loop, the order in which a checksync
visits it, which attempts connect, what the status left uninitialised by a failed GET happens to
read, and how often the reconnect timer, which runs on a thread of its own, goes off at each moment:
between turns, between two events of a scan, between the counter test of an action and its request,
between a failed removal and the queue test, and before every request of a checksync. All theorems
about runs hold for every such choice. Every attempt is an entry of the history, with the call it
makes; a probe is entered with its moment.

## What turned out otherwise than documented

* The repository's README (line 19) says that an error changes nothing on the server. It holds for
  every request that does not succeed, except exactly those where an existing file is removed and
  then its directory cannot be made (`HandlerTheorems.ErrorsChangeNothing`); that takes a backslash
  after the last slash (`OnlyBackslashLosesFile`), and it happens (`FileLost`, `FilesAreLost`).
* A body that holds `EOF%` is cut there, so the server's copy equals the local tree exactly when no
  watched file holds the sentinel (`SyncMirror.MirrorIsLocalTree`), and such a file is sent again by
  every checksync (`SyncAgain.SecondPass`).
* The server does not always mirror the watched tree when the counter is at least two. A checksync
  empties the queue of deletions even when it cannot deliver them, and an outage inside it can skip a
  path; a probe that succeeds between a failed removal and the queue test makes the removal slip the
  queue, and one that succeeds between the counter test and the request skips a checksync.
  `SyncExamples` holds a run from the login on for each. `SyncMirror.MirrorInvariant` says for every
  run, with outages and probes anywhere, exactly when the invariant holds at every moment;
  `SyncOutages.MirrorsExactly` says it of one checksync, `SyncEvents.EventExactly` of one event;
  `SyncMirror.Heals` says what later runs restore, `SyncLost.NothingElseIsLost` that nothing else is
  left over, and `SyncMissing.NothingElseIsMissing` that nothing else is missing.
* A regular file without an extension, or a directory with one, is not backed up by a POST: the name
  alone tells the server what to make (`SyncSteps.NameDecidesKind`).
* Storing a file never ends in the "internal server error" branch (`NeverInternalError`).

## Model

| member | source | states |
|---|---|---|
| `Text.SentinelOnlyAtEnd` | serverhttp/request_parser.cpp:295-301 | once the stored content holds no sentinel, one more byte makes `find` succeed exactly when the last four bytes are the sentinel, and then at that place |
| `Text.FramedSpec` | asynclienthttp/main.cpp:41 | what is kept of any body is sentinel-free, is followed by the first sentinel of body + sentinel, and is the whole body exactly when the body holds none |
| `Wire.RunConcat` | serverhttp/request_parser.h:30-42 | parsing may be stopped and resumed at any byte |
| `Wire.ChunkIndependence` | serverhttp/connection.cpp:38-68 | any division into chunks gives the same verdict, request, state and consumed count as the whole input |
| `RequestParser.RequestParser.Consume` | serverhttp/request_parser.cpp:22-307 | the in-place state machine with the full search and erase refines the step function with its four-byte test; in a path every byte below 32, and 127, is rejected and every other but the question mark is kept |
| `RequestParser.RequestParser.Parse` | serverhttp/request_parser.h:30-42 | the loop stops at the first definite verdict, with the consumed count of the run function |
| `GrammarCompleteness.Completeness` | serverhttp/request_parser.cpp:27-301 | every well-formed message is accepted at its very last byte, and the request is its meaning |
| `GrammarSoundness.RunSound` | serverhttp/request_parser.cpp:27-301 | whatever the parser has read without rejecting is the beginning of a well-formed message whose pieces are the fields stored so far |
| `ParserTheorems.AcceptsExactly` | serverhttp/request_parser.cpp:27-301 | the verdict is true if and only if the input starts with a message of the grammar; then consumed bytes and request are those of that message |
| `ParserTheorems.WaitsExactly` | serverhttp/request_parser.h:34-41 | more input is awaited if and only if the input can still be continued to a message |
| `ParserTheorems.RejectsExactly` | serverhttp/request_parser.cpp:27-305 | rejection happens if and only if neither holds, and at the first byte that rules every message out |
| `ParserTheorems.StateInvariant` | serverhttp/request_parser.cpp:193-304 | for every input `headers.back()` is defined where it is used, the stored content is sentinel-free, and the unused states are never entered |
| `ParserTheorems.VersionFitsInt32` | serverhttp/request_parser.cpp:119-176 | version numbers are the decimal value of their digits and fit a 32-bit int up to nine digits |
| `WireBytes.MethodByte` | serverhttp/request_parser.cpp:27-54 | a method holds exactly the letters, the digits and fifteen marks, and ends at a blank |
| `WireBytes.UriByte` | serverhttp/request_parser.cpp:65-79 | a path holds every byte from the blank up but 127, and ends at a question mark |
| `WireBytes.VersionByte` | serverhttp/request_parser.cpp:119-176 | version numbers are read digit by digit, in tens |
| `WireBytes.LineByte` | serverhttp/request_parser.cpp:193-214 | a line is the end of the head, a continuation if it begins with a blank or a tab, or a new header |
| `WireBytes.HeaderNameByte` | serverhttp/request_parser.cpp:235-259 | a header name holds the bytes of a method and ends at a colon and one blank |
| `WireBytes.HeaderValueByte` | serverhttp/request_parser.cpp:215-275 | a header value holds every byte from the blank up but 127 and the question mark; blanks at the beginning of a continuation are skipped |
| `WireBytes.ControlByteIsRejected` | serverhttp/request_parser.cpp:65-79 | a control byte in the path of an otherwise good request is rejected where it stands |
| `WireBytes.MethodIsRejected` | serverhttp/request_parser.cpp:27-54 | so is any other byte in the method |
| `ClientRequest.FormRequest` | asynclienthttp/main.cpp:32-41 | the streamed text is the request line by line, and parsed it yields seven headers, each by its name and value |
| `ClientRequest.FramedRoundTrip` | asynclienthttp/main.cpp:41 | for every body the printed request is accepted, delivers the seven headers in order and the framed body, and is consumed up to its first sentinel |
| `ClientRequest.RoundTrip` | asynclienthttp/main.cpp:33-41 | all fields come back unchanged and all but the last byte is consumed if and only if the verb is a token, path and header values hold no control byte, and the body holds no sentinel |
| `WireBytes.PrintedIsAccepted` | asynclienthttp/main.cpp:32-41 | a printed request of printable bytes, with blanks and without question marks, is accepted with that very method, path, version and headers, and with its body if that holds no `EOF%` |
| `WireBytes.BodyIsCut` | asynclienthttp/main.cpp:41 | a body that holds `EOF%` is delivered up to the first one |
| `RequestHandler.LoginOpens` | serverhttp/request_handler.cpp:31-48 | on the text of the rows: the login is the email of the first row `email,password` whose digest of email and password the credentials decode to, and there is none exactly when no row is such |
| `RequestHandler.LoginScan` | serverhttp/request_handler.cpp:31-48 | the loop with its extra line read finds that email, or that no row opens an account |
| `RequestHandler.DecodeUrl` | serverhttp/request_handler.cpp:148-185 | the decoding loop computes the decoding function, failures included; a plus sign gives a blank and an escape its one byte |
| `RequestHandler.DecodeOne` | serverhttp/request_handler.cpp:154-180 | a plus sign decodes to a blank, an escape to the byte its two characters stand for, in that order, and one that stands for none or is cut short fails |
| `RequestHandler.RequestHandler.HandleRequest` | serverhttp/request_handler.cpp:26-64 | reply, disk and the bytes sent back after login and path check are those of the handler functions |
| `RequestHandler.RequestHandler.PerformRequest` | serverhttp/request_handler.cpp:72-146 | the branch of each method, on the path built from document root, email and request path; a GET sends the stored bytes back and their digest decides its status; a DELETE removes what stands at the place or is answered "not found" |
| `RequestHandler.RequestHandler.ReplaceFile` | serverhttp/request_handler.cpp:105-125 | POST of a file: remove, make the directory or fail, write |
| `RequestHandler.RequestHandler.CreateDirectory` | serverhttp/request_handler.cpp:126-134 | POST without extension: probe or directory, with the header accesses that may not exist |
| `HandlerTheorems.DecodeConcat` | serverhttp/request_handler.cpp:148-185 | after a prefix that decodes, decoding succeeds exactly when it does on the rest, and concatenates |
| `HandlerTheorems.DecodeLength` | serverhttp/request_handler.cpp:154-163 | each escape shortens the text by two and nothing else changes its length |
| `HandlerTheorems.DecodeIdentity` | serverhttp/request_handler.cpp:152-184 | decoding is the identity if and only if the text holds neither `%` nor `+` |
| `HandlerTheorems.DirTreeResolves` | serverhttp/request_handler.cpp:111-112 | the directory cut off with `find_last_of` lies below the user's root for every allowed path |
| `HandlerTheorems.PerformInView` | serverhttp/request_handler.cpp:82-145 | outcome and new tree of a user depend on that user's tree alone |
| `HandlerTheorems.HandleFrame` | serverhttp/request_handler.cpp:45-64 | without a login nothing changes; with one nothing outside that user's root, except directories on the way to it |
| `HandlerTheorems.OtherUsersUntouched` | serverhttp/request_handler.cpp:84-137 | over any run of requests the tree of a user who made none of them is unchanged |
| `HandlerTheorems.UsersApart` | serverhttp/request_handler.cpp:84 | the roots of two users with different plain emails lie apart, neither inside the other |
| `HandlerTheorems.StoreInvariant` | serverhttp/request_handler.cpp:73-145 | over any run of any requests the disk stays a tree with files only at names that have an extension |
| `HandlerTheorems.ProbesChangeNothing` | serverhttp/request_handler.cpp:126-129 | GETs and empty probes never change the disk; a probe is answered accepted, unauthorized or bad request |
| `HandlerTheorems.GetAnswersBody` | serverhttp/request_handler.cpp:82-101 | a GET finds nothing, or sends back the bytes at the path below the user's root, and their digest decides the status |
| `HandlerTheorems.NeverInternalError` | serverhttp/request_handler.cpp:114-121 | the write that follows the creation of the directory cannot fail to open |
| `HandlerTheorems.ErrorsChangeNothing` | README.md:19 | a request that does not succeed leaves the disk as it was if and only if it is not one that removes a file and then cannot make its directory |
| `HandlerTheorems.OnlyBackslashLosesFile` | serverhttp/request_handler.cpp:111-112 | that takes a backslash after the last slash of the path |
| `HandlerTheorems.FileLost` | serverhttp/request_handler.cpp:106-112 | for every environment and every logged-in user a disk and a request on which the handler fails and removes a file |
| `HandlerTheorems.FilesAreLost` | serverhttp/request_handler.cpp:106-112 | there are an environment, a disk and a request that lose a file |
| `HandlerAnswers.RefusedAnswers` | serverhttp/request_handler.cpp:28-48 | without a third header the handler fails, and without an account that the credentials open any request is answered "unauthorized"; nothing changes |
| `HandlerAnswers.BadPathAnswers` | serverhttp/request_handler.cpp:51-64 | a logged-in request whose path does not decode, is not absolute or holds two dots is answered "bad request" |
| `HandlerAnswers.DeleteAnswers` | serverhttp/request_handler.cpp:136-145 | DELETE is accepted, and takes the subtree, if and only if something stands at the place, and is answered "not found" if and only if nothing does |
| `HandlerAnswers.PostFileAnswers` | serverhttp/request_handler.cpp:105-125 | POST of a file that goes into its own directory: no reply and no change with a file above it, else "created" with exactly the new content in place |
| `HandlerAnswers.PostDirectoryAnswers` | serverhttp/request_handler.cpp:126-134 | POST without extension: a missing header, a probe, a file in the way, or the directory and those above it |
| `HandlerAnswers.OtherAnswers` | serverhttp/request_handler.cpp:82-146 | any other method gets no status and changes nothing |
| `Store.StoreFileEffect` | serverhttp/request_handler.cpp:105-124 | a file stored in its own directory: blocked with no change, or exactly the new content there, its directories made, what was below it gone, all else kept |
| `FileTree.NameResolves` | serverhttp/request_handler.cpp:84 | in a path string empty text and one dot name nothing, any other name itself |
| `FileTree.ExtensionText` | serverhttp/request_handler.cpp:73-79 | the extension is what follows the last dot after the last slash |
| `Connection.Connection.HandleRead` | serverhttp/connection.cpp:35-75 | one chunk leads to a reply, a refusal or one more read, by the verdict; an error to nothing |
| `Connection.Connection.ReadOn` | serverhttp/connection.cpp:61-68 | reading goes on exactly while the parser asks for more |
| `Connection.Connection.Serve` | serverhttp/connection.cpp:26-92 | over any chunks there is at most one reply, no read after it, and reply and disk are those of the whole input |
| `Connection.BadRequestExactly` | serverhttp/connection.cpp:53-55 | "bad request" is answered if and only if the parser rejects, or a logged-in request has a path the handler refuses |
| `Connection.NoReplyExactly` | serverhttp/connection.cpp:45-59 | the connection ends without a reply if and only if the handler throws or asks for a header that is not there |
| `EndToEnd.SizeTextReads` | asynclienthttp/main.cpp:267 | the printed length is a digit string whose decimal value is the size |
| `ClientPaths.ReachesItsPlace` | serverhttp/request_handler.cpp:51-112 | a path of the client works in its own place, as text on the wire, decoded, allowed, resolved and with a file put into its own directory, if and only if its names are plain, hold no byte the wire or the decoder changes, and a file's name names no directory before a backslash |
| `EndToEnd.PostEndToEnd` | asynclienthttp/main.cpp:258-272 | POST of any content over any chunks stores exactly its framed bytes in the user's tree, with the abstract outcome, and touches nothing else |
| `EndToEnd.GetEndToEnd` | asynclienthttp/main.cpp:241-246 | GET answers whether the stored content has the digest of the local one and leaves the disk alone |
| `EndToEnd.DeleteEndToEnd` | asynclienthttp/main.cpp:274-279 | DELETE removes exactly the subtree, in the user's tree only |
| `EndToEnd.ProbeEndToEnd` | asynclienthttp/main.cpp:285-290 | login and reconnect probes are answered by the login alone and leave the disk alone |
| `EndToEnd.ProbeNames` | asynclienthttp/main.cpp:288 | `/login` and `/reconnect` are such probe paths |
| `EndToEnd.PostArrives` | asynclienthttp/main.cpp:258-272 | a POST arrives with method, path, host, email, credentials, the content, its size in digits and its media type |
| `EndToEnd.GetArrives` | asynclienthttp/main.cpp:226-246 | a GET arrives with the digest for a body, and the size and media type of the content |
| `EndToEnd.DeleteArrives` | asynclienthttp/main.cpp:274-279 | a DELETE arrives with one blank for a body, and neither size nor media type |
| `EndToEnd.ProbeArrives` | asynclienthttp/main.cpp:285-290 | the probes arrive as empty POSTs |
| `EndToEnd.DeleteAnswered` | serverhttp/request_handler.cpp:136-145 | on the wire a DELETE is answered "accepted" if and only if the path stands in the user's tree, and "not found" if and only if it does not |
| `EndToEnd.PostAnswered` | serverhttp/request_handler.cpp:103-135 | on the wire a POST is answered "created", with the node then in the user's tree, unless a regular file is in the way; then there is no reply |
| `EndToEnd.GetAnswered` | serverhttp/request_handler.cpp:82-101 | on the wire a GET is answered by what stands in the user's tree and its digest |
| `FileWatcher.FileWatcher.EraseGone` | asynclienthttp/FileWatcher.h:35-44 | the first pass keeps exactly the paths that exist and reports exactly the others |
| `FileWatcher.FileWatcher.RecordCurrent` | asynclienthttp/FileWatcher.h:48-62 | the second pass records the tree and reports exactly the new and changed paths |
| `FileWatcher.FileWatcher.Start` | asynclienthttp/FileWatcher.h:33-63 | after a scan the map is the tree; reported created are the new paths, erased those that are gone, modified those whose times differ, one event per path, erasures first |
| `FileWatcher.ReplayScan` | asynclienthttp/FileWatcher.h:33-63 | replaying the events on the old map gives the new one |
| `FileWatcher.QuietScan` | asynclienthttp/FileWatcher.h:33-63 | a scan of an unchanged tree reports nothing |
| `FileWatcher.OrderDoesNotMatter` | asynclienthttp/FileWatcher.h:36-48 | two scans in different orders report the same events, each once |
| `BackupClient.BackupClient.Connect` | asynclienthttp/main.cpp:65-95 | an attempt counts up when issued and resets the counter when it fails |
| `BackupClient.BackupClient.PostMethod` | asynclienthttp/main.cpp:258-272 | a POST that connects uploads what the path holds |
| `BackupClient.BackupClient.DeleteMethod` | asynclienthttp/main.cpp:274-279 | a DELETE that connects removes the subtree |
| `BackupClient.BackupClient.ComparePath` | asynclienthttp/main.cpp:241-252 | a GET, and the POST it may call for |
| `BackupClient.BackupClient.Checksync` | asynclienthttp/main.cpp:212-256 | the two loops replay the queue, forget it and compare every path, for any order and any connectivity |
| `BackupClient.BackupClient.Action` | asynclienthttp/main.cpp:382-447 | the watcher's action: checksync when due, then the request, queued if an erasure fails; the timer may go off before the request and before the queue test |
| `BackupClient.BackupClient.Turn` | asynclienthttp/main.cpp:368-452 | one turn of the main loop, with the timer going off between its actions and inside them, is a tick of the state machine for the events of an exact scan |
| `BackupClient.BackupClient.Reconnect` | asynclienthttp/main.cpp:284-292 | a probe is sent only while the last attempt has failed |
| `BackupClient.BackupClient.Wait` | asynclienthttp/main.cpp:281-296 | what the timer's thread does at a moment of a turn, however often it goes off |
| `SyncSteps.NameDecidesKind` | serverhttp/request_handler.cpp:104-134 | on any tree an answered POST of any node leaves its path backed up if and only if the node's kind is the one its name tells; an unanswered one changes nothing |
| `SyncSteps.UploadedBacks` | asynclienthttp/main.cpp:258-272 | a POST of a watched path backs up, besides what was, exactly that path and what lies above it |
| `SyncSteps.DrainExact` | asynclienthttp/main.cpp:214-223 | for any connectivity the queue removes exactly what lies at or below a path whose deletion was delivered |
| `SyncSteps.CheckSyncOnline` | asynclienthttp/main.cpp:212-256 | one checksync without outage, from any good server tree in any order: every local path is backed up; below the root a path that is not local is on the server exactly if it was and neither it nor anything above it was queued, and is then unchanged |
| `SyncEvents.TestExactly` | asynclienthttp/main.cpp:384-386 | with outages anywhere in the checksync it may call, the counter test lets the action go on soundly if and only if that checksync left nothing stale but what is still to be reported and, if its last attempt connected, every other local path backed up |
| `SyncEvents.EventExactly` | asynclienthttp/main.cpp:382-447 | with outages and probes anywhere in it, an action keeps the invariant, at its request and after it, if and only if its checksync left nothing undone and no probe succeeded in a window where that matters |
| `SyncMirror.RunExactly` | asynclienthttp/main.cpp:368-452 | from wherever the invariant holds, it holds at every moment of a run, with outages and probes anywhere, if and only if every turn is harmless in that sense |
| `SyncMirror.MirrorInvariant` | asynclienthttp/main.cpp:368-452 | over every run from any good tree on the server, with outages and probes anywhere: at every moment the server holds below the root only watched and queued paths and what was there unwatched at the start, and mirrors the watched tree, but for that, whenever the counter is at least two; if and only if the first checksync and every turn are harmless |
| `SyncMirror.CalmRunMirrors` | asynclienthttp/main.cpp:368-452 | so it does over every run with no outage inside a checksync and no successful probe in the two windows |
| `SyncMirror.OnlineTickMirrors` | asynclienthttp/main.cpp:376-447 | in every harmless run a tick that begins connected and meets no failure ends with a mirror, whatever was erased and created again while offline |
| `SyncMirror.OnlineTickRecovers` | README.md:5 | whatever happened before, even outages inside checksyncs and probes in the windows, a tick that begins with the counter at one and meets no failure ends with a mirror, but for what was then on the server neither watched nor queued |
| `SyncMirror.MirrorIsLocalTree` | README.md:5 | with an injective digest a mirror is the watched tree with contents cut at the first sentinel, hence the watched tree itself if and only if no watched file holds one |
| `SyncHistory.RunStays` | asynclienthttp/main.cpp:368-452 | what every call of a class keeps holds after any steps that make only such calls, whatever connects |
| `SyncHistory.ServerIsRecorded` | asynclienthttp/main.cpp:368-452 | over every run, whatever connects, the server holds what the history of calls says |
| `SyncHistory.ServerStaysGood` | asynclienthttp/main.cpp:258-272 | over every run, with outages anywhere, the server stays a tree with files exactly at names with an extension, and every POST that connects is answered "created" |
| `SyncHistory.ServerStaysClean` | serverhttp/request_parser.cpp:295-301 | over every run, whatever connects, no sentinel is stored if none was at the start |
| `SyncHistory.StaysOnServer` | asynclienthttp/main.cpp:224 | what stands on the server stays there through any steps in which no removal and no file at or above it is queued, watched or reported erased |
| `SyncCounter.CounterInvariant` | asynclienthttp/main.cpp:376-386 | over every run, with outages and probes anywhere and after any number of answered logins, the counter is one more than the successes in a row, or zero exactly when the last attempt failed; without outage inside a checksync no watcher request follows the first success after an outage before a checksync, if and only if no probe succeeds between a counter test and the request after it |
| `SyncCounter.CounterReadsSuccesses` | asynclienthttp/main.cpp:65-95 | after a failure the counter is the number of attempts that have connected since |
| `SyncCounter.ChecksyncWhenDue` | asynclienthttp/main.cpp:376-386 | over every run, whatever connects, a checksync after the first begins only with the counter at one |
| `SyncCounter.QuietTick` | asynclienthttp/main.cpp:368-386 | a turn without events changes nothing unless the counter is one |
| `SyncOrder.DrainInOrder` | asynclienthttp/main.cpp:214-223 | the queue is replayed in its own order, each path once, whatever connects |
| `SyncOrder.ComparedInOrder` | asynclienthttp/main.cpp:227-253 | every path visited is compared once, in the order of the visit |
| `SyncOrder.UploadFollowsComparison` | asynclienthttp/main.cpp:241-252 | a comparison that connects is followed by an upload if and only if the server holds nothing there, or something with another digest |
| `SyncOrder.EventsInOrder` | asynclienthttp/main.cpp:382-447 | the watcher makes one request for each event, in the order of the scan |
| `SyncOrder.QueuedInOrder` | asynclienthttp/main.cpp:434-437 | a removal is queued behind those before it, exactly when it fails and the counter is zero at the queue test |
| `SyncOutages.ForgottenExactly` | asynclienthttp/main.cpp:214-224 | a checksync always empties the queue; a path that is not local stays on the server if and only if it was there and no deletion of it or above it was delivered |
| `SyncOutages.BackedExactly` | asynclienthttp/main.cpp:226-253 | with outages anywhere a local path is backed up after a checksync if and only if it was and met no delivered deletion, or a POST at or below it was called for and delivered |
| `SyncOutages.MirrorsExactly` | asynclienthttp/main.cpp:212-256 | with outages anywhere a checksync leaves a mirror if and only if every stale path met a delivered deletion and every local path is backed up in that sense |
| `SyncOutages.BoundaryExactly` | asynclienthttp/main.cpp:212-256 | and the boundary invariant survives it if and only if the stale paths were swept and, if the last two attempts connected, every local path is backed up |
| `SyncOutages.CoverSurvives` | asynclienthttp/main.cpp:214-224 | with outages anywhere a checksync leaves no stale path on the server if and only if each queued path that still matters is covered by a delivered deletion |
| `SyncMirror.Heals` | README.md:5 | whatever connected before, even inside checksyncs and in the windows: from any moment with the counter below two the invariant holds, but for what is then on the server neither watched nor queued, and it holds through the rest of the run if and only if that is harmless, as every calm run is |
| `SyncLost.NothingElseIsLost` | asynclienthttp/main.cpp:214-224 | over every run, with outages and probes anywhere, whatever the server holds below the root is watched, or queued, or was there unwatched at the start, or its deletion was dropped by a checksync or slipped the queue and none was delivered since |
| `SyncMissing.CheckSyncServes` | asynclienthttp/main.cpp:226-253 | with outages anywhere, a checksync leaves every watched path backed up, or a comparison or upload of it failed and no upload at or below it was delivered since |
| `SyncMissing.NothingElseIsMissing` | asynclienthttp/main.cpp:368-452 | over every run, with outages and probes anywhere, the same holds of every watched path |
| `SyncAgain.SecondPass` | asynclienthttp/main.cpp:226-253 | a second checksync posts nothing if no watched file holds the sentinel; with an injective digest and no stored sentinel, only then |
| `SyncExamples.OutageLosesDeletion` | asynclienthttp/main.cpp:224 | a run from the login on after which a file neither watched nor queued is on the server, and stays in every longer run until its name is watched again |
| `SyncExamples.OutageSkipsPath` | asynclienthttp/main.cpp:249-252 | a run from the login on after which the counter is two although a watched path is missing |
| `SyncExamples.ProbeLosesDeletion` | asynclienthttp/main.cpp:434-437 | a run in which a probe between a failed removal and the queue test leaves a file on the server neither watched nor queued |
| `SyncExamples.ProbeSkipsSync` | asynclienthttp/main.cpp:384-415 | a run in which a probe between the counter test and the request leaves the counter at two with a watched path missing |
| `SyncOnWire.CallOnWire` | asynclienthttp/main.cpp:32-41 | one call as bytes, in any chunks: the reply, the user's new tree and the rest of the disk |
| `SyncOnWire.GetDecides` | asynclienthttp/main.cpp:241-252 | the reply to GET decides the POST as checksync has it, and leaves the disk alone |
| `SyncOnWire.ModelIsDisk` | asynclienthttp/main.cpp:368-452 | over every run, with outages anywhere, the client's model of the server is the user's tree on the disk after the exchanges, and nothing else on the disk has changed |
| `SyncOnWire.RepliesAreModelled` | asynclienthttp/main.cpp:376-447 | over every run each request that connects is answered, on the disk left by those before it, as the model expects: the outcome of the upload to a POST, which is "created" if the user's tree was good when the run began, the comparison to a GET, the outcome of the removal to a DELETE |
| `SyncOnWire.DiskMirrors` | README.md:5 | over every harmless run, begun with nothing unwatched and no sentinel on the server: with an injective digest, whenever the counter is at least two, the disk of the server holds below the root the watched tree cut at the sentinels, hence the watched tree itself if and only if it holds none |
| `SyncUsers.TreesKeptApart` | serverhttp/request_handler.cpp:84-137 | however the requests of any number of users interleave on one disk, each user's tree is what that user's own requests make of it |
| `SyncUsers.AnswersKeptApart` | serverhttp/request_handler.cpp:26-145 | and each request is answered from the tree of its own user |
| `SyncUsers.ModelsShareDisk` | asynclienthttp/main.cpp:368-452 | over every run of every user, however they interleave, with outages and probes anywhere, the client's model of the server is the user's tree on the shared disk |
| `SyncUsers.SharedDiskMirrors` | README.md:17 | so the mirror on the disk holds for each user whose run is harmless, whatever the others do |

## Left out

- Sockets, resolver, asynchronous scheduling, thread pool, signals, timers and console output: a request either fails to connect or completes.
- Races inside a request: attempts of the main loop and of the reconnect timer alternate, each as a whole, in every order; the first asynchronous checksync comes before the loop.
- `SyncMirror.MirrorInvariant`: assumes local changes between ticks only, a changed content has a changed time, and watched and stored files exactly at names with an extension below the root, without which no POST backs them up (`SyncSteps.NameDecidesKind`).
- `SyncUsers.ModelsShareDisk`: one client for each email, and emails that name directories; exchanges of different users alternate as a whole.
- `SyncOnWire.ModelIsDisk`: assumes watched paths that work in their own place, exactly (`ClientPaths.ReachesItsPlace`). The logins are not among the exchanges; they leave the disk alone (`EndToEnd.ProbeEndToEnd`).
- `BackupClient.BackupClient.Connect`: the counter is an unbounded integer and there is one endpoint; a success that is not answered is not modelled.
- `ParserTheorems.VersionFitsInt32`: version numbers are unbounded integers; what a signed overflow does beyond nine digits is undefined in the source.
- `RequestHandler.RequestHandler.HandleRequest`: leaves out the fixed bodies of the stock replies and the reply's headers; a header that does not exist is an outcome of its own, and so is a method other than GET, POST and DELETE, for which no status is set. `Connection` carries the status alone.
- `HandlerTheorems.HandleFrame`: document root and emails are taken as they resolve; a ".." inside them, symbolic links, full disks and permissions are not modelled, and a trailing slash or "/." names the same path as without it.
- `RequestHandler.DecodeUrl`: the stream extraction of a hexadecimal number, with its blanks, signs and single digits, is a parameter.
- `EndToEnd.PostEndToEnd`: assumes, as the other end-to-end lemmas do, a path that works in its own place, exactly (`ClientPaths.ReachesItsPlace`), and no regular file at or above the user's root (`SyncOnWire` shows that requests keep that).
- `FileWatcher.FileWatcher.Start`: hands out the events in order instead of running the action inside the loops; the action never looks at the watcher's map.
- `EndToEnd.GetEndToEnd`: assumes that the digest, which is hexadecimal in the repository, holds no sentinel.
- SHA-512, base-64 and the media types: parameters.
- The client's reading of the reply beyond its status, the login dialogue (its answered attempts are counted), `request_parser::reset` (never called), file-system changes and exceptions during a scan.
