# simple-rsyncd, verified in Dafny

simple-rsyncd is a C++ daemon that serves file modules over a line protocol. This project models its
state machines, codecs and bounded structures, and proves what each of them keeps over every input
and every run. Sockets, the disk, the clock, random identifiers, file contents and the verdicts of
cryptography are inputs that may take any value.

Code that updates fields or rewrites text step by step is a class or a method with loops here, and
each such method is proved against a function of its inputs or of the old state. The theorems are
about those functions and about sequences of their steps.

| file | what it models |
|---|---|
| `Session.dfy`, `SessionSafety.dfy` | one client session: requests, the authentication gate, chunked transfers; what every run keeps |
| `Requests.dfy` | what a session answers to each kind of request, from the text read to the text sent |
| `Download.dfy`, `Upload.dfy` | when a download completes; which bytes an upload stores, and in what order |
| `Protocol.dfy` | the request parser and the replies the session searches for a phrase |
| `Daemon.dfy` | the accept thread, the workers and `stop` as one interleaved state machine |
| `RateLimiter.dfy` | fixed windows per client, and the bound they really give |
| `SshWire.dfy`, `SshSig.dfy`, `Armour.dfy` | the string encoding of section 5 of RFC 4251; the envelope, signed data and armour of sections 2, 3 and 1 of OpenSSH PROTOCOL.sshsig, and the program's v0 variant |
| `Substitution.dfy` | `${NAME:default}` and `$NAME` in configuration values |
| `KeyDatabase.dfy`, `SavedDatabase.dfy` | printing the public-key database and reading it back; exactly which databases survive that |
| `SessionManager.dfy` | login sessions that expire |
| `LogRotation.dfy` | rotated log files as a window on the stream of lines |
| `NetworkAccess.dfy` | address blocks, masks and allow/deny decisions |
| `ModulePath.dfy`, `UploadPath.dfy` | resolving a requested path below a module's root; where the file of an upload lands |
| `Text.dfy` | the string and stream operations the others use |

## Where the code and its description differ

The model follows the code. Where that falls short of what its documentation or its names suggest,
the exact condition is proved.

- "At most `max` connections a minute" holds for the windows the limiter opens, and not for every
  minute: the most that a half-open minute can hold is twice the smaller of the limits that are set
  (`MinuteMaximum`), and the most that an hour can hold is the smaller of twice the hour limit and
  sixty-one times the minute limit (`HourMaximum`). So the minute limit holds of every minute exactly
  when the hour limit is set and at most half of it (`MinuteBoundIff`), and the hour limit holds of
  every hour exactly when the minute limit is set and sixty-one times it is no more (`HourBoundIff`).
  The defaults of 60 and 1000 (include/simple-rsyncd/config/config.hpp:110-111) meet neither condition.
- A download is announced as complete exactly when the file is not empty and every write took all it
  was offered (`DownloadCompletesIff`). A short write skips bytes for good, so the transfer ends
  without the announcement; an empty file never completes.
- A finished upload is never renamed to its final name: ending the transfer clears the module and the
  path that are tested next (src/simple-rsyncd/core/session.cpp:382-400). The branch is proved dead in
  `ReceiveNextChunk`.
- A saved key does not always load again. `LineReadsBackIff` says exactly when it does. Either the
  name is read from before the key: it holds no `:` and no "ssh-", begins with neither `#` nor a
  blank, and no key type is found in the line before the one that begins it. Or the name is read from
  the comment: the name is not `#`-marked, shows nothing before the colon, is what the comment has
  before its `@`, and no key type found in the name makes the key begin there. In both cases the
  comment does not end in a blank. A name with a newline never comes back (`SingleReadsBackIff`). A
  whole database comes back exactly when each of its entries does: lines cannot make up for each
  other (`SaveThenLoadIff`).
- A safe request need not stay below the module's root: the root is compared as text. Under the
  defaults, links forbidden and a root such as "/srv/mod", an absolute request for "/srv/mod2/x"
  passes `isPathSafe` (`SiblingServed`, `AbsoluteContainedIff`). A module keeps all safe requests within
  its root exactly when the root is the top of the tree, or is written so that it serves nothing, or
  links are forbidden and the root is written with a slash at its end (`KeepsWithinIff`). Relative
  requests stay below in every mode unless they meet a link that is allowed (`RelativeStaysBelow`).
- An upload makes none of those tests. It goes to the normal form of the root and the path with
  ".tmp", and so a PUT that names a writable module may write outside of it, into the tree of a
  read-only module for one (`EveryPathIsTaken`, `CrossesOver`). `UploadsLandBelowIff` says exactly
  when it does not; a relative path without a ".." part never leaves (`StaysWithoutUp`).
- A logger set to zero rotated files would keep all of them: its loop counter wraps around (`Count`).
  The rotation then makes 2^64 - 1 turns with a file test each, which does not end in practice.
- `stop` waits for clients: sockets block without a time limit, so a worker that reads from a silent
  client, or the accept thread in a TLS handshake with one, is never joined. That is the only way in
  which `stop` fails to end (`StopsIff`).
- With links forbidden `isPathSafe` refuses nothing that `resolvePath` would serve
  (`SafeIsResolvable`), and both refuse names such as `a..b`, which hold two dots but are not "..".

## Model

| member | source | states |
|---|---|---|
| SessionSafety.CompletedMeansDelivered | src/simple-rsyncd/core/session.cpp:333-365 | in every run, whatever the socket accepts, "Transfer complete" is announced only when the bytes delivered are the file |
| SessionSafety.StreamsMatchState | src/simple-rsyncd/core/session.cpp:262-431 | in every reachable state: receiving iff the upload stream is open, sending iff the download stream is, idle means zero counters, sent + remaining = size, delivered bytes are the prefix of the file while nothing was lost, and the upload is the one last begun and holds the bytes the log reports since; which bytes those are is `Upload.UploadIsSent` |
| Upload.UploadIsSent | src/simple-rsyncd/core/session.cpp:366-415 | at every point of every run at which an upload is received, its file holds the pieces of the client's data since the turn that began it, at most 8192 bytes from each, in the order sent |
| Upload.ReceivesAll | src/simple-rsyncd/core/session.cpp:366-379 | turns that find data add their pieces to the file, one behind the other, and the log reports the same pieces |
| Upload.UploadEnds | src/simple-rsyncd/core/session.cpp:380-411 | at the end of the data the upload is closed and announced; a failed read ends the session without a word |
| Requests.PutTaken | src/simple-rsyncd/core/session.cpp:102-152 | a PUT printed for a writable module opens the temporary file and is answered with the text the client waits for; what happens when the directory, the file or the socket fails |
| Requests.PutRefused | src/simple-rsyncd/core/protocol.cpp:298-322 | a PUT for a module that is unknown or read-only is answered with its error, and changes nothing but the current module |
| Requests.GetTaken | src/simple-rsyncd/core/session.cpp:102-152 | a GET for a file begins its download and sends the first chunk in the same turn |
| Requests.GetRefused | src/simple-rsyncd/core/protocol.cpp:269-296 | a GET for an unknown module or a missing file is answered with its error |
| Requests.OthersAnswered | src/simple-rsyncd/core/session.cpp:204-221 | LIST, DELETE and STAT are handed on and answered with the reply |
| Requests.Unauthenticated | src/simple-rsyncd/core/session.cpp:204-221 | before a user is set under public-key authentication every request but AUTH gets error 401 |
| Requests.AuthAnswered | src/simple-rsyncd/core/session.cpp:223-260 | which user an AUTH sets, exactly when, and the text of each of its eight replies |
| Requests.RequestIsCut | src/simple-rsyncd/core/session.cpp:112-124 | no more than 4095 bytes of a request are looked at |
| SessionSafety.UploadsNameWritable | src/simple-rsyncd/core/session.cpp:124-149 | in every run an upload begins only when it names a module that exists and is writable, although the session decides by searching the reply's text; its file is where the root of that module and the path lead |
| SessionSafety.UploadsLandBelowIff | src/simple-rsyncd/core/session.cpp:273-294 | in every run, exactly which uploads land below the root of the module they name: those whose path, from its lowest point on, names again what it left of the root |
| SessionSafety.EveryPathIsTaken | src/simple-rsyncd/core/session.cpp:102-152 | no path is refused: for every word an upload into a writable module begins |
| UploadPath.TempFileIs | src/simple-rsyncd/core/session.cpp:276-283 | for every root and path: the file is the root without as many names as the path climbs, followed by what the path names after its lowest point |
| UploadPath.NormalClimbs | src/simple-rsyncd/core/session.cpp:280-282 | normalising keeps what lies above the lowest level reached, and what follows does not depend on where it started |
| UploadPath.LandsBelowIff | src/simple-rsyncd/core/session.cpp:273-294 | for every root and path, exactly when the file lies below the root |
| UploadPath.StaysWithoutUp | src/simple-rsyncd/core/session.cpp:273-294 | a relative path with no ".." before its last part lands below the root, under its own names |
| UploadPath.SafeLandsBelow | src/simple-rsyncd/core/module.cpp:557-562 | a relative path that the module's own check calls safe lands below |
| UploadPath.CrossesOver | src/simple-rsyncd/core/session.cpp:273-294 | a path that climbs once lands in the directory beside the root that it names |
| SessionSafety.NoServiceBeforeAuth | src/simple-rsyncd/core/session.cpp:204-260 | under public-key authentication no request reaches the handler and no transfer begins before credentials verified |
| SessionSafety.NoCredentialsNoService | src/simple-rsyncd/core/session.cpp:204-260 | a client whose credentials never hold gets no service in any run |
| SessionSafety.ReplyKeeps | src/simple-rsyncd/core/session.cpp:134-149 | a reply that announces a transfer came through the gate, and for an upload from a writable module |
| Session.RSyncSession.SendNextChunk | src/simple-rsyncd/core/session.cpp:333-365 | the new state after a chunk: read position, bytes sent, bytes remaining, what was written, and how the transfer ends |
| Session.RSyncSession.ReceiveNextChunk | src/simple-rsyncd/core/session.cpp:366-415 | the new state after received bytes, end of stream or an error; the rename is unreachable |
| Session.RSyncSession.EndFileTransfer | src/simple-rsyncd/core/session.cpp:417-431 | streams closed, names and counters cleared, nothing else changed |
| Session.RSyncSession.Close | src/simple-rsyncd/core/session.cpp:68-80 | an active session with an open socket is inactive afterwards, and so is any session with TLS; otherwise nothing changes |
| Session.RSyncSession.HandleProtocolMessage | src/simple-rsyncd/core/session.cpp:204-221 | the gate: which messages pass, what is selected, what is replied |
| Session.RSyncSession.HandleAuthMessage | src/simple-rsyncd/core/session.cpp:223-260 | when a user is set, and which of the replies is given |
| Session.RSyncSession.ProcessRequest | src/simple-rsyncd/core/session.cpp:102-152 | the new state and outcome of one turn, errors included |
| Session.RSyncSession.StartFileUpload | src/simple-rsyncd/core/session.cpp:262-302 | when an upload begins, fails or raises, where its file is, and the state it leaves |
| Session.RSyncSession.StartFileDownload | src/simple-rsyncd/core/session.cpp:304-331 | when a download begins, and the state it leaves |
| Download.DownloadCompletesIff | src/simple-rsyncd/core/session.cpp:333-365 | every download is over after one turn more than its chunks; it completes iff the file is not empty and every write is full |
| Download.FullWritesTakeChunks | src/simple-rsyncd/core/session.cpp:333-365 | with full writes a file that is not empty takes exactly as many turns as it has chunks |
| Download.SendTurn | src/simple-rsyncd/core/session.cpp:333-365 | one turn of a download in full: the next 8192 bytes are offered, those accepted are delivered, all are passed over; how each turn can end |
| Protocol.ParsePrinted | src/simple-rsyncd/core/protocol.cpp:104-165 | a line printed from command, module, path and arguments has those fields, the last of two equal keys winning |
| Protocol.RequestParses | src/simple-rsyncd/core/protocol.cpp:43-165 | the parser gives those fields, and a valid message, for a request printed with any name of a command, bare or behind a header line |
| Protocol.FieldsAgree | src/simple-rsyncd/core/protocol.cpp:104-165 | the parser's separate tokenisations of a line agree with one tokenisation |
| Protocol.FramedAndBare | src/simple-rsyncd/core/protocol.cpp:43-102 | the framed and the bare form of a line give the same fields when the command is known, and the same validity when a module is named |
| Protocol.ParsedModuleIsWord | src/simple-rsyncd/core/protocol.cpp:130-142 | parsed module and path hold no whitespace |
| Protocol.PutReplyDecides | src/simple-rsyncd/core/protocol.cpp:298-322 | a PUT reply holds the phrase the session looks for iff the module is known and writable |
| Protocol.ParseArguments | src/simple-rsyncd/core/protocol.cpp:144-165 | the loop computes the arguments of the tokens after the third |
| Protocol.Parse | src/simple-rsyncd/core/protocol.cpp:43-102 | the parser's result for framed, bare, empty and malformed input |
| Protocol.CommandNames | src/simple-rsyncd/core/protocol.cpp:104-128 | which words name each command |
| Protocol.UpperCase | src/simple-rsyncd/core/protocol.cpp:104-112 | case does not matter: only a to z change, by 32 |
| Requests.PrintedAs | src/simple-rsyncd/core/protocol.cpp:104-165 | how a request stands on the wire: words with a blank between them, arguments as key=value |
| Requests.LongErrorTexts | src/simple-rsyncd/core/protocol.cpp:183-185 | the reply to an error is its code and its text, each on a line |
| Daemon.OnePlace | src/simple-rsyncd/core/daemon.cpp:374-418 | in every interleaving each session ever made is in exactly one place, once: pool, accept thread, one worker's list, or destroyed |
| Daemon.NoSharing | src/simple-rsyncd/core/daemon.cpp:374-418 | no two workers hold the same session, none holds one twice, and none holds one that is pooled |
| Daemon.TotalCounts | src/simple-rsyncd/core/daemon.cpp:689-740 | the connection counter is the number of sessions ever pooled |
| Daemon.AdmittedIff | src/simple-rsyncd/core/daemon.cpp:689-697 | a client is let in exactly when the pool holds fewer sessions than the maximum |
| Daemon.PoolWithinCapacity | src/simple-rsyncd/core/daemon.cpp:689-740 | in every interleaving the pool exceeds the maximum by no more than the sessions that workers have put back |
| Daemon.JoinsAtEnd | src/simple-rsyncd/core/daemon.cpp:374-418 | sessions join the pool at its end; only taking and closing remove any |
| Daemon.StoppedIsQuiet | src/simple-rsyncd/core/daemon.cpp:157-197 | after `stop` every session ever made is inactive and destroyed, and the pool is empty, however the threads interleaved |
| Daemon.StoppedIsFinal | src/simple-rsyncd/core/daemon.cpp:157-197 | nothing happens after that |
| Daemon.StopDescends | src/simple-rsyncd/core/daemon.cpp:157-197 | once `stop` has begun every step, of a thread or of a client, brings its end nearer in a well-founded order |
| Daemon.StopProceeds | src/simple-rsyncd/core/daemon.cpp:461-478 | and until it is through, a thread can move except exactly while the thread being joined waits for a silent client and so does every worker left: the threads cannot block each other |
| Daemon.StopsIff | src/simple-rsyncd/core/daemon.cpp:157-197 | while threads move whenever they can, `stop` comes to its end exactly unless a worker, or the accept thread in a handshake, waits for one and the same client forever |
| Daemon.EveryScheduleStops | src/simple-rsyncd/core/daemon.cpp:157-197 | every schedule in which always some thread moves or some client answers brings `stop` to its end |
| Daemon.StopEnds | src/simple-rsyncd/core/daemon.cpp:157-197 | from every point of every run, whether or not `stop` has begun, it can be brought to its end |
| Daemon.WorkerServes | src/simple-rsyncd/core/daemon.cpp:374-418 | at any point of any run, one round of a worker: each active session of the pool has its turn, those that stay active are back in order behind the inactive ones, and the others are destroyed |
| Daemon.ConnectionIsPooled | src/simple-rsyncd/core/daemon.cpp:651-742 | while the daemon runs and the pool has room, a connection becomes an active session at the end of the pool, with TLS after its handshake |
| Daemon.ConservedKeeps | src/simple-rsyncd/core/daemon.cpp:651-742 | every critical section keeps the places of all sessions |
| Daemon.ActiveKeeps | src/simple-rsyncd/core/daemon.cpp:374-418 | the pool holds active sessions only until it is closed, and destroyed sessions are inactive |
| Daemon.SessionPool.TakeActive | src/simple-rsyncd/core/daemon.cpp:379-390 | the erasing loop takes exactly the active sessions, in order, and leaves the others, in order |
| Daemon.SessionPool.ReturnActive | src/simple-rsyncd/core/daemon.cpp:406-414 | the processed sessions that are still active are appended, in order |
| Daemon.SessionPool.CloseSessions | src/simple-rsyncd/core/daemon.cpp:486-494 | every pooled session is inactive afterwards |
| Daemon.TakenAndLeft | src/simple-rsyncd/core/daemon.cpp:379-390 | what is taken and what is left are the pool, split by activity |
| Daemon.TakenAppend | src/simple-rsyncd/core/daemon.cpp:379-390 | both keep the order of the pool |
| RateLimiter.SlidingBound | src/simple-rsyncd/security/rate_limiter.cpp:8-73 | in every run at non-decreasing times, any half-open minute (hour) holds at most twice the configured number of a client's connections |
| RateLimiter.SlidingBoundReached | src/simple-rsyncd/security/rate_limiter.cpp:8-73 | for all limits some run records twice the smaller one within a minute, and so within an hour |
| RateLimiter.MinuteMaximum | src/simple-rsyncd/security/rate_limiter.cpp:8-73 | twice the smaller limit is the exact maximum of any minute over all runs |
| RateLimiter.MinuteBoundIff | src/simple-rsyncd/security/rate_limiter.cpp:8-73 | exactly when no minute of any run exceeds the minute limit: the hour limit is set and at most half of it |
| RateLimiter.HourBoundIff | src/simple-rsyncd/security/rate_limiter.cpp:8-73 | exactly when no hour of any run exceeds the hour limit: the minute limit is set and sixty-one times it is no more |
| RateLimiter.MinuteByHourLimit | src/simple-rsyncd/security/rate_limiter.cpp:26-73 | any minute holds at most twice the hour limit, although the two windows read the clock apart |
| RateLimiter.HourByMinuteLimit | src/simple-rsyncd/security/rate_limiter.cpp:26-73 | any hour holds at most sixty-one times the minute limit |
| RateLimiter.HourMaximum | src/simple-rsyncd/security/rate_limiter.cpp:8-73 | the smaller of twice the hour limit and sixty-one times the minute limit, of those that are set, is the exact maximum of any hour over all runs |
| RateLimiter.HourReached | src/simple-rsyncd/security/rate_limiter.cpp:8-73 | a run that fills sixty-one minute windows and two hour windows as far as both limits let it |
| RateLimiter.NeverRefusedAfterAllow | src/simple-rsyncd/core/daemon.cpp:689-705 | no window counts more than its limit, and recording an allowed connection never meets the refusal branch |
| RateLimiter.ClientsIndependent | src/simple-rsyncd/security/rate_limiter.cpp:26-73 | deleting all other clients' attempts leaves a client's windows and recorded attempts as they were |
| RateLimiter.DecisionsIndependent | src/simple-rsyncd/security/rate_limiter.cpp:26-59 | so no client changes a decision about another |
| RateLimiter.IncrementKeeps | src/simple-rsyncd/security/rate_limiter.cpp:8-24 | an increment below the limit is accepted and keeps the window's invariant for all intervals |
| RateLimiter.ConnectionRateLimiter.AllowConnection | src/simple-rsyncd/security/rate_limiter.cpp:26-59 | the answer and the windows after it |
| RateLimiter.ConnectionRateLimiter.RecordConnection | src/simple-rsyncd/security/rate_limiter.cpp:61-73 | the windows after a recorded connection |
| RateLimiter.RefusedIff | src/simple-rsyncd/security/rate_limiter.cpp:8-24 | an increment is refused exactly when the window runs and its limit is used up; no increment takes a count past the limit |
| RateLimiter.OffKeepsNothing | src/simple-rsyncd/security/rate_limiter.cpp:26-73 | a limit of zero keeps no windows in any run, and two of them refuse nothing |
| RateLimiter.RefusedByMinute | src/simple-rsyncd/security/rate_limiter.cpp:26-58 | a full minute refuses before the hour is looked at, and asking never adds to a window |
| SshWire.WireStringRoundTrip | src/simple-rsyncd/security/ssh_key.cpp:21-35 | an encoded string is read back iff it is shorter than 2^32 bytes |
| SshWire.ReadStringSound | src/simple-rsyncd/security/ssh_key.cpp:326-338 | what is read was encoded there; the offset moves forward and stays inside |
| SshWire.ReadStringsBack | src/simple-rsyncd/security/ssh_key.cpp:321-338 | reading back any encoded list returns it |
| SshWire.PrefixFree | src/simple-rsyncd/security/ssh_key.cpp:21-35 | wire strings are uniquely decodable |
| SshWire.EncodingInjective | src/simple-rsyncd/security/ssh_key.cpp:21-35 | equal encodings of two lists mean equal lists |
| SshWire.SignedDataV1Injective | src/simple-rsyncd/security/ssh_key.cpp:241-251 | the v1 preamble determines namespace, hash name and digest |
| SshWire.SignedDataV0Injective | src/simple-rsyncd/security/ssh_key.cpp:253-263 | so does the v0 preamble |
| SshWire.SignedDataDisjoint | src/simple-rsyncd/security/ssh_key.cpp:241-263 | no v0 preamble equals a v1 preamble |
| SshWire.AppendWireString | src/simple-rsyncd/security/ssh_key.cpp:21-28 | appends the big-endian length, modulo 2^32, and the bytes |
| SshWire.BuildSignedDataV1 | src/simple-rsyncd/security/ssh_key.cpp:241-251 | appending field by field gives the v1 layout |
| SshWire.BuildSignedDataV0 | src/simple-rsyncd/security/ssh_key.cpp:253-263 | and the v0 layout |
| SshWire.SignedDataV1Reads | src/simple-rsyncd/security/ssh_key.cpp:241-251 | behind six magic bytes four strings are read: namespace, nothing, hash name, digest, and no more follows |
| SshWire.SignedDataV0Reads | src/simple-rsyncd/security/ssh_key.cpp:253-263 | behind seven magic bytes: the namespace, a zero byte, the hash name and the digest, and no more follows |
| SshWire.ShortString | src/simple-rsyncd/security/ssh_key.cpp:21-28 | the length stands first, its most significant byte foremost |
| SshSig.ParsesIff | src/simple-rsyncd/security/ssh_key.cpp:265-317 | a blob parses to given fields iff it is laid out as an envelope with them, up to trailing bytes |
| SshSig.HeaderReads | src/simple-rsyncd/security/ssh_key.cpp:265-281 | the two marks, their lengths, and where the version and the body begin |
| SshSig.BodyReads | src/simple-rsyncd/security/ssh_key.cpp:282-317 | for version 1 and later five strings are read; which of them is which field |
| SshSig.BodyReads0 | src/simple-rsyncd/security/ssh_key.cpp:282-317 | for version 0 two strings, a zero byte and two strings |
| SshSig.ParseComplete | src/simple-rsyncd/security/ssh_key.cpp:265-317 | every envelope parses to its fields |
| SshSig.ParseSound | src/simple-rsyncd/security/ssh_key.cpp:265-317 | every blob that parses is an envelope |
| SshSig.TrailingBytesIgnored | src/simple-rsyncd/security/ssh_key.cpp:265-317 | bytes after the envelope change nothing |
| SshSig.ParseSshSigEnvelope | src/simple-rsyncd/security/ssh_key.cpp:265-317 | the reader-driven parser computes the parse, failures included |
| SshSig.SignatureBlobReadBack | src/simple-rsyncd/security/ssh_key.cpp:541-547 | the inner blob the signer builds is read back |
| Armour.NormalizeArmoured | src/simple-rsyncd/security/ssh_key.cpp:442-470 | armouring a base64 body at any width of at least 1 and normalising gives the body |
| Armour.NormalizeSignatureInput | src/simple-rsyncd/security/ssh_key.cpp:442-470 | for every input, with or without marks and in any order, the loop ends with the text between them without newlines |
| Armour.BetweenMarks | src/simple-rsyncd/security/ssh_key.cpp:442-470 | for every text, by its first marks and the newline after the opening one: what is between them loses its newlines; without both marks and that newline nothing changes |
| Armour.JoinedIsUnwrapped | src/simple-rsyncd/security/ssh_key.cpp:453-468 | joining the lines of a stretch is deleting its newlines |
| Substitution.SubstituteEnvironmentVariables | src/simple-rsyncd/config/config.cpp:1178-1253 | the two in-place loops end and compute the two left-to-right expansions, which are the evaluations of `ExpandIsEvaluation` and `ExpandNamesIsEvaluation` |
| Substitution.BracesStepKeeps | src/simple-rsyncd/config/config.cpp:1182-1216 | what a turn of the first loop adds is the expansion of what it passed over; inserted text is not looked at again |
| Substitution.BracesTurnIsStep | src/simple-rsyncd/config/config.cpp:1182-1216 | replacing inside the text is that step on the rest of the given text |
| Substitution.ExpandIsEvaluation | src/simple-rsyncd/config/config.cpp:1178-1216 | for every text, pass one gives each reference its value, its default or itself, and keeps the text between |
| Substitution.ExpandSource | src/simple-rsyncd/config/config.cpp:1178-1216 | the same for any text written from a template |
| Substitution.ExpandName | src/simple-rsyncd/config/config.cpp:1218-1250 | `$NAME` becomes the value of the longest name when it is set and stays `$NAME` when it is not; a lone `$` stays |
| Substitution.ExpandNamesIsEvaluation | src/simple-rsyncd/config/config.cpp:1218-1250 | for every text, pass two gives each name its value, or keeps it when it is not set, and keeps the text between |
| Substitution.EveryTextIsNameTemplate | src/simple-rsyncd/config/config.cpp:1218-1250 | every text is written from a template of longest names of letters, digits and underscores |
| Substitution.ExpandNamesSource | src/simple-rsyncd/config/config.cpp:1218-1250 | the same evaluation for any text written from such a template |
| Substitution.PlainTextUnchanged | src/simple-rsyncd/config/config.cpp:1178-1253 | a text without `$` comes back unchanged |
| KeyDatabase.SaveThenLoad | src/simple-rsyncd/core/auth.cpp:757-837 | saving and loading gives the same users, key order, types, data and comments, in whatever order users are written |
| SavedDatabase.SaveThenLoadIff | src/simple-rsyncd/core/auth.cpp:757-837 | and exactly when: saving and loading gives the same database iff each entry is read back from its own line |
| SavedDatabase.ReadAgain | src/simple-rsyncd/core/auth.cpp:757-810 | an entry that was read from a line is, printed and read again, itself, or one with its name before the key from then on, or one with a longer key |
| SavedDatabase.EachReadsBack | src/simple-rsyncd/core/auth.cpp:757-837 | lines that are read as the entries written, in any order, are each read as their own |
| SavedDatabase.TypesStay | src/simple-rsyncd/core/auth.cpp:643-674 | a key type that begins what a key was read from, none listed before it occurring, does so in the printed key |
| SavedDatabase.LoadKeepsKeys | src/simple-rsyncd/core/auth.cpp:757-810 | every loaded key can be printed |
| SavedDatabase.ChangesKeepKeys | src/simple-rsyncd/core/auth.cpp:839-877 | adding and removing keep that |
| KeyDatabase.LineReadsBackIff | src/simple-rsyncd/core/auth.cpp:734-810 | exactly when one printed line is read back, by way of the name or of the comment |
| KeyDatabase.SingleReadsBackIff | src/simple-rsyncd/core/auth.cpp:757-837 | exactly when a database of one key is the same after saving and loading, for every name |
| KeyDatabase.LineReadsBack | src/simple-rsyncd/core/auth.cpp:734-810 | the conditions suffice |
| KeyDatabase.ParsePrintedKey | src/simple-rsyncd/core/auth.cpp:643-674 | a printed key parses to itself |
| KeyDatabase.ParsedKeyOk | src/simple-rsyncd/core/auth.cpp:643-674 | every key that parses can be printed: its type and data are words, the type is supported, the comment holds no newline |
| KeyDatabase.SupportedTypes | src/simple-rsyncd/core/auth.cpp:689-694 | which key types load |
| KeyDatabase.LineText | src/simple-rsyncd/core/auth.cpp:734-837 | the text of a printed line |
| KeyDatabase.FileText | src/simple-rsyncd/core/auth.cpp:812-837 | the file is those lines, each ended by a newline |
| KeyDatabase.LineRead | src/simple-rsyncd/core/auth.cpp:734-810 | a line written as name, type, data and comment is read as just these |
| KeyDatabase.LoadKeepsLists | src/simple-rsyncd/core/auth.cpp:757-810 | loading any text leaves no user without a key |
| KeyDatabase.ChangesKeepLists | src/simple-rsyncd/core/auth.cpp:839-877 | so do adding and removing |
| KeyDatabase.RemoveUndoesAdd | src/simple-rsyncd/core/auth.cpp:839-877 | removing a key just added gives the database from before, unless its data was there already |
| KeyDatabase.PublicKeyDatabase.Load | src/simple-rsyncd/core/auth.cpp:757-810 | the loaded keys, also when the file does not open |
| KeyDatabase.PublicKeyDatabase.Save | src/simple-rsyncd/core/auth.cpp:812-837 | the text written |
| KeyDatabase.PublicKeyDatabase.AddKey | src/simple-rsyncd/core/auth.cpp:839-852 | the keys, the file and the answer |
| KeyDatabase.PublicKeyDatabase.RemoveKey | src/simple-rsyncd/core/auth.cpp:854-877 | the keys, the file and the answer |
| SessionManager.Survives | src/simple-rsyncd/core/auth.cpp:512-598 | a session whose activities follow each other within its timeout survives any operations on other sessions, and is valid |
| SessionManager.PresentIff | src/simple-rsyncd/core/auth.cpp:512-598 | exactly when a session that is not deleted is still there: every sweep found its last activity recent enough, whatever the clock reads |
| SessionManager.RunIsLives | src/simple-rsyncd/core/auth.cpp:512-598 | in every run each session is what its own history makes it |
| SessionManager.AlwaysActive | src/simple-rsyncd/core/auth.cpp:512-598 | no operation makes a session inactive |
| SessionManager.CreatedFor | src/simple-rsyncd/core/auth.cpp:512-535 | a new session has the user, the client and the time it was created with, and the timeout asked for, or the default for zero |
| SessionManager.ValidUntil | src/simple-rsyncd/core/auth.cpp:555-566 | a session is valid until a whole second more than its timeout has passed since its last activity |
| SessionManager.Manager.CleanupExpiredSessions | src/simple-rsyncd/core/auth.cpp:582-598 | removes exactly the sessions not valid at that instant; its result plus the new size is the old size |
| SessionManager.Manager.GetActiveSessions | src/simple-rsyncd/core/auth.cpp:600-615 | lists each session the validity check accepts, once, and no other |
| LogRotation.ReadBackIsSuffix | src/simple-rsyncd/utils/logger.cpp:225-291 | after any lines, rotations and changes of the size limit, the files, oldest first, then the current one, are the end of the stream of lines |
| LogRotation.RunShows | src/simple-rsyncd/utils/logger.cpp:225-291 | after any of these exactly the newest closed generations are there, as many as there are places, each in its place |
| LogRotation.KeepsMaxFiles | src/simple-rsyncd/utils/logger.cpp:225-291 | for any limit of at least one and every run: beside the current log there are exactly as many rotated files as the limit allows and generations closed, the newest of them, each in its place by name, compressed or not, and no file else |
| LogRotation.BytesOfText | src/simple-rsyncd/utils/logger.cpp:258-291 | the size compared with the limit is the length of the text written |
| LogRotation.StepShows | src/simple-rsyncd/utils/logger.cpp:225-291 | every line, rotation and change of the limit keeps that |
| LogRotation.RotatedShows | src/simple-rsyncd/utils/logger.cpp:225-256 | one rotation adds the current generation and drops at most the oldest |
| LogRotation.ShiftedAt | src/simple-rsyncd/utils/logger.cpp:233-244 | the descending renaming loop moves each place's content to the next |
| LogRotation.CutFull | src/simple-rsyncd/utils/logger.cpp:272-291 | a generation that its size closed met the limit with its last line, and with none before while the limit is not changed |
| LogRotation.CutKeeps | src/simple-rsyncd/utils/logger.cpp:258-291 | generations lose and reorder nothing, whatever closed them |
| LogRotation.Logger.RotateLog | src/simple-rsyncd/utils/logger.cpp:225-256 | the files after a rotation, with any number of places; how many there are in every run is `KeepsMaxFiles` |
| LogRotation.Logger.LogEntry | src/simple-rsyncd/utils/logger.cpp:258-291 | the files and the size after a line |
| NetworkAccess.InCidrIsInterval | src/simple-rsyncd/security/network_access.cpp:50-57 | matching by mask is equality of quotients by 2^(32 - prefix), for every prefix from 0 to 32 |
| NetworkAccess.NestedOrDisjoint | src/simple-rsyncd/security/network_access.cpp:50-57 | two blocks are nested or disjoint |
| NetworkAccess.HalvesMakeBlock | src/simple-rsyncd/security/network_access.cpp:50-57 | a block is the union of its two halves |
| NetworkAccess.SplittingChangesNothing | src/simple-rsyncd/security/network_access.cpp:74-113 | writing a rule as its two halves changes no decision, in any list |
| NetworkAccess.MoreRules | src/simple-rsyncd/security/network_access.cpp:98-113 | more deny rules never admit more; more allow rules, of hosts or of networks, never refuse more once there are some |
| NetworkAccess.FirstAllowRule | src/simple-rsyncd/security/network_access.cpp:98-113 | the exact effect of the first allow rule |
| NetworkAccess.AnyRuleMatches | src/simple-rsyncd/security/network_access.cpp:74-86 | the scan finds a rule iff one that is not empty matches |
| NetworkAccess.ParseCidr | src/simple-rsyncd/security/network_access.cpp:21-48 | the block a rule names, or none |
| NetworkAccess.IsAllowed | src/simple-rsyncd/security/network_access.cpp:98-113 | no deny rule matches and, with an allow list, some allow rule does |
| NetworkAccess.AllowedIff | src/simple-rsyncd/security/network_access.cpp:98-113 | on the four lists: no rule denying hosts or networks matches, and no rule allows at all or one that allows hosts or networks matches |
| NetworkAccess.DenyRuleRefuses | src/simple-rsyncd/security/network_access.cpp:98-106 | a matching rule of either deny list refuses, whatever else is allowed |
| NetworkAccess.BareRule | src/simple-rsyncd/security/network_access.cpp:21-57 | an address without a prefix matches itself alone |
| NetworkAccess.PrefixRule | src/simple-rsyncd/security/network_access.cpp:21-57 | an address with a prefix matches those that agree with it in so many leading bits, when the prefix is from 0 to 32 |
| ModulePath.ResolveExactly | src/simple-rsyncd/core/module.cpp:432-494 | with links forbidden, for every way the root is written: exactly which relative and absolute requests are served, and the path each resolves to, also when canonicalising throws |
| ModulePath.KeepsWithinIff | src/simple-rsyncd/core/module.cpp:432-562 | exactly which modules keep every safe request below their root, by tests on root and link setting alone |
| ModulePath.AbsoluteContainedIff | src/simple-rsyncd/core/module.cpp:432-562 | with links forbidden, a safe absolute request is served as it stands, and lies below a root reached without links iff the root is written as a directory or the name at its last place is its own |
| ModulePath.RelativeStaysBelow | src/simple-rsyncd/core/module.cpp:432-562 | a safe relative request resolves to the canonical root followed by its names, below the root, whether or not links are allowed, unless it meets one |
| ModulePath.SiblingServed | src/simple-rsyncd/core/module.cpp:432-562 | an absolute request for a sibling whose name begins with the root's is safe and served, in every mode, unless the root ends in a slash |
| ModulePath.LinkLeaves | src/simple-rsyncd/core/module.cpp:479-490 | where links are allowed, a slash at the end of the root does not help |
| ModulePath.ServedIsBelowOrBeside | src/simple-rsyncd/core/module.cpp:432-494 | whatever is served, in any mode, lies below the root or under a name beside it that begins with the root's |
| ModulePath.TextStartsIff | src/simple-rsyncd/core/module.cpp:443-457 | what the first comparison of texts means for the parts of root and request |
| ModulePath.KeepsSlash | src/simple-rsyncd/core/module.cpp:443-457 | the normal form of a text ends in a slash exactly when the text does, or ends in a "." or ".." part |
| ModulePath.StrStartsIff | src/simple-rsyncd/core/module.cpp:480-487 | what the comparison of canonical paths means for their names |
| ModulePath.CanonicalCommutes | src/simple-rsyncd/core/module.cpp:479-490 | canonicalising commutes with appending names where the way meets no link |
| ModulePath.BlockedIff | src/simple-rsyncd/core/module.cpp:464-477 | the walk refuses a ".." part or a link on the way, and nothing else |
| ModulePath.StrDots | src/simple-rsyncd/core/module.cpp:459-462 | two dots in a printed path are two dots in one of its names |
| ModulePath.SafeIsResolvable | src/simple-rsyncd/core/module.cpp:540-562 | with links forbidden the safety check agrees with resolving on every request |
| ModulePath.SafeIff | src/simple-rsyncd/core/module.cpp:540-562 | in every mode it asks for that and for no two dots in a row |
| ModulePath.ResolvePath | src/simple-rsyncd/core/module.cpp:432-494 | the program's walk and tests compute that answer |

## Left out

- TLS, sockets, OpenSSL, base64, hashing and salts: foreign code; their results are inputs. Closing a session is modelled as far as inactivity and the socket number go, not descriptor closure.
- The file of a download is taken not to change while it is open, so its size at opening is the length of what is read; a write result above the offer is cut to the offer.
- Exceptions in `handleGet`, and the replies of list, delete and stat: any reply text is possible for the latter three, and the former returns its two replies.
- `version_` of the parser: it is set and never read. `ProtocolParser::parse` on a byte buffer is the string form after a copy.
- ParsePrinted: here and in `RequestParses`, module and path must be words and the arguments printable, which is what the parser can separate; other inputs are covered by `Parse` and `FieldsAgree`.
- The AUTH gate for the password method: the program gates public-key sessions only.
- A bound on all open sessions: the capacity check counts the pool only, not the sessions held by workers, and the check and the push are separate critical sections.
- The two flags that stop the threads are set one after the other and are one flag here.
- Starting the daemon again after `stop`, the configuration monitor thread, signals and privileges.
- The modules a session sees are a value captured when it is accepted; the program keeps a reference to a local map.
- SlidingBound: times are positive and never go back, as for a steady clock; the two windows read it separately, which the model keeps.
- The username stored inside each key: it equals the key's place in the map and is not kept twice. `UserDatabase` is not modelled: its hashes may hold the field separator.
- Password policy, account expiry, key generation and the glob matcher: they add easy members.
- "Expired stays expired" is not claimed: refreshing a session does not look at its expiry.
- Locking in the logger: a written line that meets the limit rotates while it holds the lock that rotation takes. The model rotates sequentially. The number of places and the compression flag do not change during a run.
- A log file that exists before the logger starts, filters, formats and console output.
- The address and number parsers of the platform are parameters of `NetworkAccess`; a client address that does not parse matches no rule.
- ResolveExactly: here and in all of `ModulePath` and `UploadPath` the root is absolute and exists (`validate` asks for the latter); a root given relative to the working directory is not modelled. A slash at the end of a canonical result is not kept. A link that leads nowhere counts as an ordinary name, as it does for the program's test.
- UploadsLandBelowIff: it compares normal forms, as the program computes them; where links below that place lead is the file system's affair, and so are directories that are missing or closed.
- Byte strings of the session and text modules are sequences of `char`; nothing depends on an encoding.
