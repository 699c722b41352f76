/** One client session: it reads a request, gates it on authentication, dispatches it, and moves
    a file in chunks of 8192 bytes over a socket that may write short. Bytes are `char`s.
    Everything outside the session is adversarial and arrives in an `Env`. */
module Session {
  import opened Text
  import opened Protocol
  import UploadPath

  const CHUNK: nat := 8192
  const REQUEST_MAX: nat := 4095

  datatype Transfer = Idle | Receiving | Sending

  /** `tls` says that the session has a TLS connection of its own. */
  datatype Config = Config(authEnabled: bool, authMethod: string, hasAuthManager: bool, tls: bool)

  /** What the session did, in order: what it offered to the socket, which requests it handed
      to the handler, what it verified, and its files. */
  datatype Output =
    | Said(text: string)
    | Data(bytes: string)
    | Completed
    | Uploaded
    | Handled(command: Command)
    | Verified(user: string)
    | DownloadBegan(content: string)
    | UploadBegan(moduleName: string, path: string, file: seq<string>)
    | Received(bytes: string)

  /** What one call meets: the socket's bytes (empty at end of stream) or its error, the verdict
      on credentials, the file system's answers, and how much each write accepts. */
  datatype Env = Env(
    input: string, readFails: bool,
    credentialsHold: bool,
    found: bool, details: string, otherReply: string,
    infoFound: bool, fileOpens: bool, content: string,
    directoriesFail: bool, tempOpens: bool,
    accepted: int, says: bool, saysAgain: bool)

  /** The stream of the temporary file an upload writes: its place, and what was written to it so far. */
  datatype Upload = NoUpload | Writing(file: seq<string>, written: string)

  /** The stream of the file a download reads, unchanged while it is open, and its position. */
  datatype Download = NoDownload | Reading(file: string, position: nat)

  datatype State = State(
    config: Config, modules: Modules, active: bool, open: bool, user: string, current: string,
    transfer: Transfer, transferModule: string, transferPath: string,
    upload: Upload, download: Download, remaining: nat, sent: nat, log: seq<Output>)

  datatype Started = Yes | No | Raised

  datatype Outcome = Returned(more: bool) | Threw

  function Min(a: nat, b: nat): nat {
    if a <= b then a else b
  }

  function Fresh(config: Config, modules: Modules): State {
    State(config, modules, true, true, "", "", Idle, "", "", NoUpload, NoDownload, 0, 0, [])
  }

  function Logged(s: State, o: Output): State {
    s.(log := s.log + [o])
  }

  // ---------- what each method computes ----------

  function Say(s: State, text: string, accepted: bool): (State, bool) {
    if !s.open || !s.active then (s, false) else (Logged(s, Said(text)), accepted)
  }

  /** The announcements that end a transfer; their write result is not looked at. */
  function Announce(s: State, o: Output): State {
    if !s.open || !s.active then s else Logged(s, o)
  }

  function EndTransfer(s: State): State {
    s.(upload := NoUpload, download := NoDownload, transfer := Idle, transferModule := "", transferPath := "",
    remaining := 0, sent := 0)
  }

  /** A stream that is not open, or stands past its end, yields nothing. */
  function Unread(d: Download): nat {
    if d.Reading? && d.position <= |d.file| then |d.file| - d.position else 0
  }

  function Append(u: Upload, bytes: string): Upload {
    match u
    case NoUpload => u
    case Writing(file, written) => Writing(file, written + bytes)
  }

  function Slice(d: Download, n: nat): string
    requires n <= Unread(d)
  {
    if n == 0 then "" else d.file[d.position..d.position + n]
  }

  /** Reading `count` bytes of which the socket accepts the first `n`. */
  function SendChunk(s: State, count: nat, n: nat): State
    requires 0 < count && n <= count <= Unread(s.download) && n <= s.remaining
  {
    Logged(s.(download := Reading(s.download.file, s.download.position + count),
              sent := s.sent + n, remaining := s.remaining - n), Data(Slice(s.download, n)))
  }

  function Continue(s: State, e: Env): (State, bool) {
    match s.transfer
    case Idle => (s, false)
    case Sending =>
      var count := Min(Min(CHUNK, s.remaining), Unread(s.download));
      if count == 0 then (EndTransfer(s), false)
      else
        if !s.open || e.accepted < 0 then (EndTransfer(s), false)
        else
          var s1 := SendChunk(s, count, Min(e.accepted, count));
          if s1.remaining == 0 then (Announce(EndTransfer(s1), Completed), true) else (s1, true)
    case Receiving =>
      var chunk := e.input[..Min(CHUNK, |e.input|)];
      if e.readFails then (EndTransfer(s), false)
      else if chunk != "" then
        (Logged(s.(upload := Append(s.upload, chunk), sent := s.sent + |chunk|), Received(chunk)), true)
      else
        (Announce(EndTransfer(s), Uploaded), true)
  }

  function StartUpload(s: State, moduleName: string, path: string, e: Env): (State, Started) {
    var s1 := s.(transferModule := moduleName, transferPath := path);
    var name := Effective(moduleName, s.current);
    if name !in s.modules then (s1, No)
    else if e.directoriesFail then (s1, Raised)
    else if !e.tempOpens then (s1, No)
    else
      var file := UploadPath.TempFile(s.modules[name].root, path);
      (Logged(s1.(upload := Writing(file, ""), transfer := Receiving, remaining := 0),
              UploadBegan(name, path, file)), Yes)
  }

  function StartDownload(s: State, moduleName: string, path: string, e: Env): (State, Started) {
    var s1 := s.(transferModule := moduleName, transferPath := path);
    if Effective(moduleName, s.current) !in s.modules || !e.infoFound || !e.fileOpens then (s1, No)
    else
      (Logged(s1.(download := Reading(e.content, 0), transfer := Sending,
                  remaining := |e.content|, sent := 0), DownloadBegan(e.content)), Yes)
  }

  predicate Gated(s: State) {
    s.config.authEnabled && s.config.authMethod == "public_key"
  }

  /** Do the credentials of an AUTH message reach the manager, and does it accept them? */
  predicate Accepts(s: State, m: Message, e: Env) {
    && s.config.hasAuthManager && e.credentialsHold && m.moduleName != ""
    && if s.config.authMethod == "public_key" then m.path != "" && "signature" in m.arguments
       else s.config.authMethod == "password" && "password" in m.arguments
  }

  function AuthState(s: State, m: Message, e: Env): State {
    if !s.config.authEnabled then s.(user := "anonymous")
    else if Accepts(s, m, e) then Logged(s.(user := m.moduleName), Verified(m.moduleName))
    else s
  }

  function AuthReply(s: State, m: Message, e: Env): string {
    if !s.config.authEnabled then FormatSuccess("Authentication disabled")
    else if Accepts(s, m, e) then FormatSuccess("Authenticated: " + m.moduleName)
    else if s.config.authMethod == "public_key" then
      if !s.config.hasAuthManager then FormatError(500, "Authentication manager unavailable")
      else if m.moduleName == "" || m.path == "" || "signature" !in m.arguments then
        FormatError(400, "AUTH requires: AUTH <user> <challenge> signature=<base64_ssh_sig>")
      else FormatError(403, "Public key authentication failed")
    else if s.config.authMethod == "password" then
      if m.moduleName == "" || "password" !in m.arguments then
        FormatError(400, "AUTH requires: AUTH <user> _ password=<secret>")
      else FormatError(403, "Password authentication failed")
    else FormatError(501, "Unsupported authentication method")
  }

  function HandlerReply(s: State, m: Message, e: Env): string {
    match m.command
    case Put => HandlePut(s.modules, s.current, m)
    case Get => HandleGet(s.modules, s.current, m, e.found, e.details)
    case List | Delete | Stat => e.otherReply
    case Auth | Unknown => FormatError(-1, "Unknown command")
  }

  /** The gate: under public-key authentication only AUTH passes until a user is set. */
  predicate Refused(s: State, m: Message) {
    Gated(s) && s.user == "" && m.command != Auth
  }

  function Selected(s: State, m: Message): State {
    if m.moduleName != "" then s.(current := m.moduleName) else s
  }

  function HandleState(s: State, m: Message, e: Env): State {
    var s1 := Selected(s, m);
    if Refused(s, m) then s1
    else if m.command == Auth then AuthState(s1, m, e)
    else Logged(s1, Handled(m.command))
  }

  function HandleReply(s: State, m: Message, e: Env): string {
    if Refused(s, m) then FormatError(401, "Authentication required: send AUTH command")
    else if m.command == Auth then AuthReply(Selected(s, m), m, e)
    else HandlerReply(Selected(s, m), m, e)
  }

  function Reply(s: State, text: string, accepted: bool): (State, Outcome) {
    var (s1, ok) := Say(s, text, accepted);
    (s1, Returned(ok))
  }

  function Process(s: State, e: Env): (State, Outcome) {
    if !s.active then (s, Returned(false))
    else if s.transfer != Idle then
      var (s1, more) := Continue(s, e);
      (s1, Returned(more))
    else if e.readFails || e.input == "" then (s.(active := false), Returned(false))
    else
      var m := MessageOf(e.input[..Min(REQUEST_MAX, |e.input|)]);
      if !m.valid then Reply(s, FormatError(-1, "Invalid protocol message: " + m.error), e.says)
      else
        Dispatch(HandleState(s, m, e), m, HandleReply(s, m, e), e)
  }

  /** Acting on the handler's reply: it starts the transfer the reply announces. */
  function Dispatch(s: State, m: Message, reply: string, e: Env): (State, Outcome) {
    if m.command == Get && Contains(reply, READY_TO_SEND) then
      var (s1, started) := StartDownload(s, m.moduleName, m.path, e);
      if started == Yes then
        var (s2, more) := Continue(s1, e);
        (s2, Returned(more))
      else Reply(s1, reply, e.says)
    else if m.command == Put && Contains(reply, READY_TO_RECEIVE) then
      var (s1, started) := StartUpload(s, m.moduleName, m.path, e);
      if started == Raised then (s1, Threw)
      else if started == Yes then
        var (s2, ok) := Say(s1, reply, e.says);
        if ok then (s2.(transfer := Receiving), Returned(true)) else Reply(s2, reply, e.saysAgain)
      else Reply(s1, reply, e.says)
    else Reply(s, reply, e.says)
  }

  /** A session without TLS that is inactive already keeps its socket. */
  function Closed(s: State): State {
    if s.config.tls || (s.active && s.open) then s.(active := false, open := false) else s
  }

  /** One turn a worker gives the session: a false return or an exception closes it. */
  function Turn(s: State, e: Env): State {
    if !s.active then s
    else
      var (s1, outcome) := Process(s, e);
      if outcome == Returned(true) then s1 else Closed(s1)
  }

  function Run(s: State, es: seq<Env>): State {
    if es == [] then s else Turn(Run(s, es[..|es|-1]), es[|es|-1])
  }

  lemma IdleStays(s: State, e: Env)
    requires s.transfer == Idle
    ensures Continue(s, e) == (s, false)
  {
  }

  // ---------- the session object ----------

  class RSyncSession {
    const config: Config
    const modules: Modules
    var active: bool
    var open: bool
    var user: string
    var current: string
    var transfer: Transfer
    var transferModule: string
    var transferPath: string
    var upload: Upload
    var download: Download
    var remaining: nat
    var sent: nat
    var log: seq<Output>

    function View(): State
      reads this
    {
      State(config, modules, active, open, user, current, transfer, transferModule, transferPath,
            upload, download, remaining, sent, log)
    }

    constructor (config: Config, modules: Modules)
      ensures View() == Fresh(config, modules)
    {
      this.config := config;
      this.modules := modules;
      active, open := true, true;
      user, current := "", "";
      transfer, transferModule, transferPath := Idle, "", "";
      upload, download := NoUpload, NoDownload;
      remaining, sent := 0, 0;
      log := [];
    }

    method Close()
      modifies this
      ensures View() == Closed(old(View()))
    {
      if config.tls {
        open := false;
        active := false;
        return;
      }
      if active && open {
        open := false;
        active := false;
      }
    }

    method WriteResponse(text: string, accepted: bool) returns (ok: bool)
      modifies this
      ensures (View(), ok) == Say(old(View()), text, accepted)
    {
      if !open || !active {
        return false;
      }
      log := log + [Said(text)];
      return accepted;
    }

    method EndFileTransfer()
      modifies this
      ensures View() == EndTransfer(old(View()))
    {
      if upload.Writing? {
        upload := NoUpload;
      }
      if download.Reading? {
        download := NoDownload;
      }
      transfer := Idle;
      transferModule := "";
      transferPath := "";
      remaining := 0;
      sent := 0;
    }

    method ContinueFileTransfer(e: Env) returns (more: bool)
      modifies this
      ensures (View(), more) == Continue(old(View()), e)
    {
      hide Continue;
      if transfer == Sending {
        more := SendNextChunk(e);
      } else if transfer == Receiving {
        more := ReceiveNextChunk(e);
      } else {
        IdleStays(View(), e);
        more := false;
      }
    }

    method SendNextChunk(e: Env) returns (more: bool)
      requires transfer == Sending
      modifies this
      ensures (View(), more) == Continue(old(View()), e)
    {
      var chunkSize := Min(CHUNK, remaining);
      var buffer := "";
      if Unread(download) > 0 {
        buffer := download.file[download.position..download.position + Min(chunkSize, Unread(download))];
        download := download.(position := download.position + |buffer|);
      }
      if |buffer| == 0 {
        EndFileTransfer();
        return false;
      }
      var bytesSent: int := if open then e.accepted else -1;
      if bytesSent < 0 {
        EndFileTransfer();
        return false;
      }
      bytesSent := Min(bytesSent, |buffer|);
      var bytes := buffer[..bytesSent];
      ghost var d := old(download);
      assert bytes == Slice(d, bytesSent);
      log := log + [Data(bytes)];
      sent := sent + bytesSent;
      remaining := remaining - bytesSent;
      if remaining == 0 {
        EndFileTransfer();
        if open && active {
          log := log + [Completed];
        }
      }
      more := true;
    }

    method ReceiveNextChunk(e: Env) returns (more: bool)
      requires transfer == Receiving
      modifies this
      ensures (View(), more) == Continue(old(View()), e)
    {
      var buffer := e.input[..Min(CHUNK, |e.input|)];
      if !e.readFails && |buffer| > 0 {
        upload := Append(upload, buffer);
        sent := sent + |buffer|;
        log := log + [Received(buffer)];
        return true;
      }
      EndFileTransfer();
      if e.readFails {
        return false;
      }
      if transferModule != "" && transferPath != "" {
        // The rename to the final name would stand here: ending the transfer has already
        // cleared both names.
        assert false;
      }
      if open && active {
        log := log + [Uploaded];
      }
      more := true;
    }

    method StartFileUpload(moduleName: string, path: string, e: Env) returns (started: Started)
      modifies this
      ensures (View(), started) == StartUpload(old(View()), moduleName, path, e)
    {
      transferModule := moduleName;
      transferPath := path;
      var name := if moduleName == "" then current else moduleName;
      if name !in modules {
        return No;
      }
      var file := UploadPath.TempFile(modules[name].root, path);
      if e.directoriesFail {
        return Raised;
      }
      if !e.tempOpens {
        return No;
      }
      upload := Writing(file, "");
      log := log + [UploadBegan(name, path, file)];
      transfer := Receiving;
      remaining := 0;
      return Yes;
    }

    method StartFileDownload(moduleName: string, path: string, e: Env) returns (started: Started)
      modifies this
      ensures (View(), started) == StartDownload(old(View()), moduleName, path, e)
    {
      transferModule := moduleName;
      transferPath := path;
      var name := if moduleName == "" then current else moduleName;
      if name !in modules {
        return No;
      }
      if !e.infoFound {
        return No;
      }
      if !e.fileOpens {
        return No;
      }
      download := Reading(e.content, 0);
      log := log + [DownloadBegan(e.content)];
      transfer := Sending;
      remaining := |e.content|;
      sent := 0;
      return Yes;
    }

    method HandleAuthMessage(m: Message, e: Env) returns (reply: string)
      modifies this
      ensures View() == AuthState(old(View()), m, e)
      ensures reply == AuthReply(old(View()), m, e)
    {
      hide FormatSuccess, FormatError;
      if !config.authEnabled {
        user := "anonymous";
        return FormatSuccess("Authentication disabled");
      }
      if config.authMethod == "public_key" {
        reply := HandlePublicKey(m, e);
      } else if config.authMethod == "password" {
        reply := HandlePassword(m, e);
      } else {
        reply := FormatError(501, "Unsupported authentication method");
      }
    }

    method HandlePublicKey(m: Message, e: Env) returns (reply: string)
      requires config.authEnabled && config.authMethod == "public_key"
      modifies this
      ensures View() == AuthState(old(View()), m, e)
      ensures reply == AuthReply(old(View()), m, e)
    {
      hide FormatSuccess, FormatError;
      if !config.hasAuthManager {
        return FormatError(500, "Authentication manager unavailable");
      }
      if m.moduleName == "" || m.path == "" || "signature" !in m.arguments {
        return FormatError(400, "AUTH requires: AUTH <user> <challenge> signature=<base64_ssh_sig>");
      }
      if e.credentialsHold {
        user := m.moduleName;
        log := log + [Verified(m.moduleName)];
        return FormatSuccess("Authenticated: " + m.moduleName);
      }
      reply := FormatError(403, "Public key authentication failed");
    }

    method HandlePassword(m: Message, e: Env) returns (reply: string)
      requires config.authEnabled && config.authMethod == "password"
      modifies this
      ensures View() == AuthState(old(View()), m, e)
      ensures reply == AuthReply(old(View()), m, e)
    {
      hide FormatSuccess, FormatError;
      if m.moduleName == "" || "password" !in m.arguments {
        return FormatError(400, "AUTH requires: AUTH <user> _ password=<secret>");
      }
      if config.hasAuthManager && e.credentialsHold {
        user := m.moduleName;
        log := log + [Verified(m.moduleName)];
        return FormatSuccess("Authenticated: " + m.moduleName);
      }
      reply := FormatError(403, "Password authentication failed");
    }

    method HandleProtocolMessage(m: Message, e: Env) returns (reply: string)
      modifies this
      ensures View() == HandleState(old(View()), m, e)
      ensures reply == HandleReply(old(View()), m, e)
    {
      if m.moduleName != "" {
        current := m.moduleName;
      }
      if config.authEnabled && config.authMethod == "public_key" && user == "" && m.command != Auth {
        return FormatError(401, "Authentication required: send AUTH command");
      }
      if m.command == Auth {
        reply := HandleAuthMessage(m, e);
        return;
      }
      log := log + [Handled(m.command)];
      reply := HandlerReply(View(), m, e);
    }

    method ProcessRequest(e: Env) returns (outcome: Outcome)
      modifies this
      ensures (View(), outcome) == Process(old(View()), e)
    {
      if !active {
        return Returned(false);
      }
      if transfer != Idle {
        var more := ContinueFileTransfer(e);
        return Returned(more);
      }
      if e.readFails || e.input == "" {
        active := false;
        return Returned(false);
      }
      var request := e.input[..Min(REQUEST_MAX, |e.input|)];
      var m := Parse(request);
      if !m.valid {
        var ok := WriteResponse(FormatError(-1, "Invalid protocol message: " + m.error), e.says);
        return Returned(ok);
      }
      var reply := HandleProtocolMessage(m, e);
      outcome := DispatchReply(m, reply, e);
    }

    method DispatchReply(m: Message, reply: string, e: Env) returns (outcome: Outcome)
      modifies this
      ensures (View(), outcome) == Dispatch(old(View()), m, reply, e)
    {
      FindContains(reply, READY_TO_SEND);
      FindContains(reply, READY_TO_RECEIVE);
      var ok;
      if Find(reply, READY_TO_SEND, 0) != -1 && m.command == Get {
        var started := StartFileDownload(m.moduleName, m.path, e);
        if started == Yes {
          var more := ContinueFileTransfer(e);
          return Returned(more);
        }
      } else if Find(reply, READY_TO_RECEIVE, 0) != -1 && m.command == Put {
        var started := StartFileUpload(m.moduleName, m.path, e);
        if started == Raised {
          return Threw;
        }
        if started == Yes {
          ok := WriteResponse(reply, e.says);
          if ok {
            transfer := Receiving;
            return Returned(true);
          }
          ok := WriteResponse(reply, e.saysAgain);
          return Returned(ok);
        }
      }
      ok := WriteResponse(reply, e.says);
      return Returned(ok);
    }
  }
}
