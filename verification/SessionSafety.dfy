/** What every run of a session keeps, whatever its environment does. */
module SessionSafety {
  import opened Text
  import opened Protocol
  import opened Session
  import opened ModulePath
  import opened UploadPath

  // ---------- reading the log ----------

  /** The content of the download last begun, and the bytes delivered since. */
  datatype Delivered = Delivered(content: string, data: string)

  function Delivers(d: Delivered, o: Output): Delivered {
    match o
    case DownloadBegan(c) => Delivered(c, "")
    case Data(bytes) => Delivered(d.content, d.data + bytes)
    case _ => d
  }

  function Delivery(log: seq<Output>): Delivered {
    if log == [] then Delivered("", "") else Delivers(Delivery(log[..|log|-1]), log[|log|-1])
  }

  /** The file of the upload last begun, with the bytes received since. */
  function Stores(u: Upload, o: Output): Upload {
    match o
    case UploadBegan(_, _, file) => Writing(file, "")
    case Received(bytes) => Append(u, bytes)
    case _ => u
  }

  function Stored(log: seq<Output>): Upload {
    if log == [] then NoUpload else Stores(Stored(log[..|log|-1]), log[|log|-1])
  }

  predicate HasVerified(log: seq<Output>) {
    exists i :: 0 <= i < |log| && log[i].Verified?
  }

  /** May `o` follow `before`? A completed download has delivered its file exactly; an upload
      names a writable module and goes where its root and the path lead; and under public-key
      authentication no request reaches the handler and no transfer begins before some credentials
      verified. */
  ghost predicate MayFollow(s: State, before: seq<Output>, o: Output) {
    match o
    case Completed => Delivery(before).content == Delivery(before).data
    case UploadBegan(name, path, file) =>
      && name in s.modules && !s.modules[name].readOnly && file == TempFile(s.modules[name].root, path)
      && (Gated(s) ==> HasVerified(before))
    case DownloadBegan(_) => Gated(s) ==> HasVerified(before)
    case Handled(_) => Gated(s) ==> HasVerified(before)
    case _ => true
  }

  ghost predicate Sound(s: State, log: seq<Output>) {
    forall i :: 0 <= i < |log| ==> MayFollow(s, log[..i], log[i])
  }

  // ---------- the invariant ----------

  /** Each transfer state goes with its stream, and no transfer with zero counters. */
  ghost predicate Shape(s: State) {
    && (s.transfer == Receiving <==> s.upload.Writing?)
    && (s.transfer == Sending <==> s.download.Reading?)
    && (s.transfer == Idle ==> s.remaining == 0 && s.sent == 0)
    && (s.active ==> s.open)
    && NoSpace(s.current)
  }

  /** Sent and remaining bytes add up to the file; the file was read at least as far as it was
      sent; while the two agree, what was delivered is that prefix of the file. */
  ghost predicate Progress(s: State) {
    s.transfer == Sending && s.download.Reading? ==>
      var d := Delivery(s.log);
      && s.sent + s.remaining == |s.download.file|
      && s.sent <= s.download.position <= |s.download.file|
      && d.content == s.download.file && |d.data| == s.sent
      && (s.sent == s.download.position ==> d.data == s.download.file[..s.sent])
  }

  ghost predicate Invariant(s: State) {
    && Shape(s) && Progress(s) && Sound(s, s.log)
    && (s.transfer == Receiving && s.upload.Writing? ==> s.upload == Stored(s.log))
    && (Gated(s) && (s.user != "" || s.transfer != Idle) ==> HasVerified(s.log))
  }

  /** The parts of the state that no step changes. */
  predicate SameSetup(s: State, t: State) {
    s.config == t.config && s.modules == t.modules
  }

  lemma Extend(s: State, log: seq<Output>, o: Output)
    requires Sound(s, log) && MayFollow(s, log, o)
    ensures Sound(s, log + [o])
    ensures HasVerified(log + [o]) <==> HasVerified(log) || o.Verified?
    ensures Delivery(log + [o]) == Delivers(Delivery(log), o)
    ensures Stored(log + [o]) == Stores(Stored(log), o)
  {
    var more := log + [o];
    assert more[..|log|] == log;
    forall i | 0 <= i < |more| ensures MayFollow(s, more[..i], more[i]) {
      if i < |log| {
        assert more[..i] == log[..i];
      }
    }
    if HasVerified(log) {
      var i :| 0 <= i < |log| && log[i].Verified?;
      assert more[i].Verified?;
    }
    if o.Verified? {
      assert more[|log|].Verified?;
    }
  }

  lemma SoundFor(s: State, t: State, log: seq<Output>)
    requires SameSetup(s, t) && Sound(s, log)
    ensures Sound(t, log)
  {
    forall i | 0 <= i < |log| ensures MayFollow(t, log[..i], log[i]) {
      assert MayFollow(s, log[..i], log[i]);
    }
  }

  lemma SayKeeps(s: State, text: string, accepted: bool)
    requires Invariant(s)
    ensures Invariant(Say(s, text, accepted).0) && SameSetup(s, Say(s, text, accepted).0)
  {
    hide Sound, HasVerified, Delivery, Stored, NoSpace, TempFile;
    Extend(s, s.log, Said(text));
    SoundFor(s, Say(s, text, accepted).0, Say(s, text, accepted).0.log);
  }

  lemma EndKeeps(s: State)
    requires Invariant(s)
    ensures Invariant(EndTransfer(s)) && SameSetup(s, EndTransfer(s))
  {
    hide Sound, HasVerified, Delivery, Stored, NoSpace, TempFile;
    SoundFor(s, EndTransfer(s), s.log);
  }

  lemma AnnounceKeeps(s: State, o: Output)
    requires Invariant(s) && s.transfer == Idle && (o == Uploaded || (o == Completed && MayFollow(s, s.log, o)))
    ensures Invariant(Announce(s, o)) && SameSetup(s, Announce(s, o))
  {
    hide Sound, HasVerified, Delivery, Stored, NoSpace, TempFile;
    Extend(s, s.log, o);
    SoundFor(s, Announce(s, o), Announce(s, o).log);
  }

  lemma ChunkProgress(s: State, count: nat, n: nat)
    requires Progress(s) && s.transfer == Sending && s.download.Reading?
    requires 0 < count && n <= count <= Unread(s.download) && n <= s.remaining
    requires Delivery(SendChunk(s, count, n).log) == Delivers(Delivery(s.log), Data(Slice(s.download, n)))
    ensures Progress(SendChunk(s, count, n))
  {
    var file, at := s.download.file, s.download.position;
    assert file[..at] + file[at..at + n] == file[..at + n];
  }

  lemma ChunkKeeps(s: State, count: nat, n: nat)
    requires Invariant(s) && s.transfer == Sending
    requires 0 < count && n <= count <= Unread(s.download) && n <= s.remaining
    ensures Invariant(SendChunk(s, count, n))
  {
    var o := Data(Slice(s.download, n));
    Extend(s, s.log, o);
    ChunkProgress(s, count, n);
    SoundFor(s, SendChunk(s, count, n), s.log + [o]);
  }

  lemma SendKeeps(s: State, e: Env)
    requires Invariant(s) && s.transfer == Sending
    ensures Invariant(Continue(s, e).0) && SameSetup(s, Continue(s, e).0)
  {
    var count := Min(Min(CHUNK, s.remaining), Unread(s.download));
    EndKeeps(s);
    if count != 0 && s.open && e.accepted >= 0 {
      var s1 := SendChunk(s, count, Min(e.accepted, count));
      ChunkKeeps(s, count, Min(e.accepted, count));
      EndKeeps(s1);
      if s1.remaining == 0 {
        FullyDelivered(s1);
        AnnounceKeeps(EndTransfer(s1), Completed);
      }
    }
  }

  /** With nothing remaining, nothing that was read can have been lost. */
  lemma FullyDelivered(s: State)
    requires Progress(s) && s.transfer == Sending && s.download.Reading? && s.remaining == 0
    ensures Delivery(s.log).content == Delivery(s.log).data
  {
    assert s.download.file[..s.sent] == s.download.file;
  }

  lemma ReceiveKeeps(s: State, e: Env)
    requires Invariant(s) && s.transfer == Receiving
    ensures Invariant(Continue(s, e).0) && SameSetup(s, Continue(s, e).0)
  {
    hide Sound, HasVerified, Delivery, Stored, NoSpace, TempFile;
    var chunk := e.input[..Min(CHUNK, |e.input|)];
    EndKeeps(s);
    AnnounceKeeps(EndTransfer(s), Uploaded);
    Extend(s, s.log, Received(chunk));
    SoundFor(s, Continue(s, e).0, s.log + [Received(chunk)]);
  }

  lemma ContinueKeeps(s: State, e: Env)
    requires Invariant(s)
    ensures Invariant(Continue(s, e).0) && SameSetup(s, Continue(s, e).0)
  {
    match s.transfer
    case Idle =>
    case Sending => SendKeeps(s, e);
    case Receiving => ReceiveKeeps(s, e);
  }

  function Begin(s: State, name: string, path: string): Output {
    UploadBegan(name, path, if name in s.modules then TempFile(s.modules[name].root, path) else [])
  }

  lemma StartUploadKeeps(s: State, moduleName: string, path: string, e: Env)
    requires Invariant(s) && s.transfer == Idle
    requires var name := Effective(moduleName, s.current);
             name in s.modules ==> MayFollow(s, s.log, Begin(s, name, path))
    ensures var t := StartUpload(s, moduleName, path, e).0;
            Invariant(t) && SameSetup(s, t)
  {
    hide Sound, HasVerified, Delivery, Stored, NoSpace, TempFile;
    var t := StartUpload(s, moduleName, path, e).0;
    var name := Effective(moduleName, s.current);
    if name in s.modules {
      Extend(s, s.log, Begin(s, name, path));
    }
    SoundFor(s, t, t.log);
  }

  lemma StartDownloadKeeps(s: State, moduleName: string, path: string, e: Env)
    requires Invariant(s) && s.transfer == Idle && (Gated(s) ==> HasVerified(s.log))
    ensures var t := StartDownload(s, moduleName, path, e).0;
            Invariant(t) && SameSetup(s, t)
  {
    hide Sound, HasVerified, Delivery, Stored, NoSpace, TempFile;
    var t := StartDownload(s, moduleName, path, e).0;
    Extend(s, s.log, DownloadBegan(e.content));
    SoundFor(s, t, t.log);
  }

  lemma AuthenticateKeeps(s: State, m: Message, e: Env)
    requires Invariant(s) && s.transfer == Idle
    ensures var t := AuthState(s, m, e);
            Invariant(t) && SameSetup(s, t) && t.transfer == Idle && t.current == s.current
  {
    hide Sound, HasVerified, Delivery, Stored, NoSpace, TempFile;
    var t := AuthState(s, m, e);
    Extend(s, s.log, Verified(m.moduleName));
    SoundFor(s, t, t.log);
  }

  lemma HandleKeeps(s: State, m: Message, e: Env)
    requires Invariant(s) && s.transfer == Idle && NoSpace(m.moduleName)
    ensures var t := HandleState(s, m, e);
            && Invariant(t) && SameSetup(s, t) && t.transfer == Idle
            && (Gated(s) && m.command != Auth && !Refused(s, m) ==> HasVerified(t.log))
  {
    hide Sound, HasVerified, Delivery, Stored, NoSpace, TempFile;
    var s1, t := Selected(s, m), HandleState(s, m, e);
    SoundFor(s, s1, s.log);
    if m.command == Auth {
      AuthenticateKeeps(s1, m, e);
    } else if !Refused(s, m) {
      Extend(s1, s1.log, Handled(m.command));
      SoundFor(s1, t, t.log);
    }
  }

  lemma GateReplyPlain(s: State, m: Message, e: Env)
    requires Refused(s, m)
    ensures !Contains(HandleReply(s, m, e), READY_TO_RECEIVE) && !Contains(HandleReply(s, m, e), READY_TO_SEND)
  {
    var fixed := "Authentication required: send AUTH command";
    assert 'R' !in fixed;
    assert fixed + "" == fixed;
    ErrorHeadPlain(401);
    NotReady(ErrorHead(401), fixed, "", READY_TO_RECEIVE);
    NotReady(ErrorHead(401), fixed, "", READY_TO_SEND);
  }

  /** A reply that announces a transfer got through the gate, and an upload reply that says
      "Ready to receive file" means that the module is known and writable. */
  lemma ReplyKeeps(s: State, m: Message, e: Env)
    requires Invariant(s) && s.transfer == Idle && NoSpace(m.moduleName)
    ensures var (t, reply) := (HandleState(s, m, e), HandleReply(s, m, e));
            && (m.command == Get && Contains(reply, READY_TO_SEND) && Gated(s) ==> HasVerified(t.log))
            && (m.command == Put && Contains(reply, READY_TO_RECEIVE) ==>
                  MayFollow(t, t.log, Begin(t, Effective(m.moduleName, t.current), m.path)))
  {
    HandleKeeps(s, m, e);
    if Refused(s, m) {
      GateReplyPlain(s, m, e);
    } else if m.command == Put {
      PutReplyDecides(s.modules, Selected(s, m).current, m);
    }
  }

  lemma DispatchKeeps(s: State, m: Message, reply: string, e: Env)
    requires Invariant(s) && s.transfer == Idle
    requires m.command == Get && Contains(reply, READY_TO_SEND) && Gated(s) ==> HasVerified(s.log)
    requires m.command == Put && Contains(reply, READY_TO_RECEIVE) ==>
               MayFollow(s, s.log, Begin(s, Effective(m.moduleName, s.current), m.path))
    ensures var t := Dispatch(s, m, reply, e).0;
            Invariant(t) && SameSetup(s, t)
  {
    hide Invariant, MayFollow, Contains, HasVerified, Gated, Continue;
    if m.command == Get && Contains(reply, READY_TO_SEND) {
      StartDownloadKeeps(s, m.moduleName, m.path, e);
      var (s1, _) := StartDownload(s, m.moduleName, m.path, e);
      ContinueKeeps(s1, e);
      SayKeeps(s1, reply, e.says);
    } else if m.command == Put && Contains(reply, READY_TO_RECEIVE) {
      StartUploadKeeps(s, m.moduleName, m.path, e);
      var (s1, _) := StartUpload(s, m.moduleName, m.path, e);
      SayKeeps(s1, reply, e.says);
      SayKeeps(Say(s1, reply, e.says).0, reply, e.saysAgain);
    } else {
      SayKeeps(s, reply, e.says);
    }
  }

  lemma FailedReadKeeps(s: State)
    requires Invariant(s)
    ensures Invariant(s.(active := false)) && SameSetup(s, s.(active := false))
  {
    SoundFor(s, s.(active := false), s.log);
  }

  lemma ProcessKeeps(s: State, e: Env)
    requires Invariant(s)
    ensures Invariant(Process(s, e).0) && SameSetup(s, Process(s, e).0)
  {
    hide Invariant, MayFollow, Contains, HasVerified, Continue, HandleState, HandleReply, Dispatch, FormatError,
      MessageOf;
    if s.active && s.transfer != Idle {
      ContinueKeeps(s, e);
    } else if s.active && (e.readFails || e.input == "") {
      FailedReadKeeps(s);
    } else if s.active {
      var request := e.input[..Min(REQUEST_MAX, |e.input|)];
      var m := MessageOf(request);
      ParsedModuleIsWord(request);
      SayKeeps(s, FormatError(-1, "Invalid protocol message: " + m.error), e.says);
      HandleKeeps(s, m, e);
      ReplyKeeps(s, m, e);
      DispatchKeeps(HandleState(s, m, e), m, HandleReply(s, m, e), e);
    }
  }

  lemma TurnKeeps(s: State, e: Env)
    requires Invariant(s)
    ensures Invariant(Turn(s, e)) && SameSetup(s, Turn(s, e))
  {
    ProcessKeeps(s, e);
    var s1 := Process(s, e).0;
    SoundFor(s1, Closed(s1), s1.log);
  }

  lemma {:induction false} RunKeeps(config: Config, modules: Modules, es: seq<Env>)
    ensures var s := Run(Fresh(config, modules), es);
            Invariant(s) && SameSetup(Fresh(config, modules), s)
  {
    if es != [] {
      RunKeeps(config, modules, es[..|es|-1]);
      TurnKeeps(Run(Fresh(config, modules), es[..|es|-1]), es[|es|-1]);
    }
  }

  // ---------- over every run ----------

  /** Transfer state, streams and counters agree in every reachable state; a transfer in
      progress has delivered, or stored, exactly what the log says. */
  lemma StreamsMatchState(config: Config, modules: Modules, es: seq<Env>)
    ensures var s := Run(Fresh(config, modules), es);
            Shape(s) && Progress(s)
            && (s.transfer == Receiving ==> s.upload == Stored(s.log))
  {
    RunKeeps(config, modules, es);
  }

  /** "Transfer complete" is announced only after the file was delivered byte for byte. */
  lemma CompletedMeansDelivered(config: Config, modules: Modules, es: seq<Env>, i: nat)
    requires var log := Run(Fresh(config, modules), es).log;
             i < |log| && log[i] == Completed
    ensures var log := Run(Fresh(config, modules), es).log;
            Delivery(log[..i]).data == Delivery(log[..i]).content
  {
    RunKeeps(config, modules, es);
    var s := Run(Fresh(config, modules), es);
    assert MayFollow(s, s.log[..i], s.log[i]);
  }

  /** No upload ever begins that names a module which is unknown or read-only, and each goes to the place
      that the root of the module and the path make. */
  lemma UploadsNameWritable(config: Config, modules: Modules, es: seq<Env>, i: nat)
    requires var log := Run(Fresh(config, modules), es).log;
             i < |log| && log[i].UploadBegan?
    ensures var o := Run(Fresh(config, modules), es).log[i];
            && o.moduleName in modules && !modules[o.moduleName].readOnly
            && o.file == TempFile(modules[o.moduleName].root, o.path)
  {
    RunKeeps(config, modules, es);
    var s := Run(Fresh(config, modules), es);
    assert MayFollow(s, s.log[..i], s.log[i]);
  }

  /** So an upload leaves the tree of the writable module it names exactly when its path, from its lowest
      point on, does not name again what it left of the root. */
  lemma UploadsLandBelowIff(config: Config, modules: Modules, es: seq<Env>, i: nat)
    requires var log := Run(Fresh(config, modules), es).log;
             i < |log| && log[i].UploadBegan?
    ensures var o := Run(Fresh(config, modules), es).log[i];
            && o.moduleName in modules
            && var root := modules[o.moduleName].root;
               && KeptOfRoot(root, o.path) <= |RootPlace(root)|
               && (Below(o.file, RootPlace(root))
                   <==> Below(Normal([], TempParts(o.path)), RootPlace(root)[KeptOfRoot(root, o.path)..]))
  {
    hide Run, TempFile, Below, Normal, RootPlace, KeptOfRoot;
    UploadsNameWritable(config, modules, es, i);
    var o := Run(Fresh(config, modules), es).log[i];
    LandsBelowIff(modules[o.moduleName].root, o.path);
  }

  /** No path is refused: for every word an upload into a writable module begins. */
  lemma EveryPathIsTaken(config: Config, modules: Modules, name: string, path: string, e: Env)
    requires name in modules && !modules[name].readOnly && !Gated(Fresh(config, modules))
    requires IsWord(name) && IsWord(path)
    requires e.input == PrintRequest("PUT", name, path, []) && |e.input| <= REQUEST_MAX
    requires !e.readFails && !e.directoriesFail && e.tempOpens
    ensures UploadBegan(name, path, TempFile(modules[name].root, path)) in Run(Fresh(config, modules), [e]).log
  {
    hide TempFile, FormatError, Contains, Continue, MessageOf, PrintRequest;
    PutParses(name, path, e.input);
    var s := Fresh(config, modules);
    assert [e][..0] == [] && Run(s, []) == s;
    assert e.input[..|e.input|] == e.input;
    var m := MessageOf(e.input);
    assert HandleReply(s, m, e) == HandlePut(modules, name, m);
    WordHasNoSpace(name);
    PutReplyDecides(modules, name, m);
    hide HandlePut;
    PutBegins(HandleState(s, m, e), m, HandleReply(s, m, e), e);
  }

  lemma WordHasNoSpace(word: string)
    requires IsWord(word)
    ensures NoSpace(word) && word != ""
  {
  }

  lemma PutBegins(s: State, m: Message, reply: string, e: Env)
    requires m.command == Put && Contains(reply, READY_TO_RECEIVE) && !e.directoriesFail && e.tempOpens
    requires m.moduleName != "" && m.moduleName in s.modules
    ensures var o := UploadBegan(m.moduleName, m.path, TempFile(s.modules[m.moduleName].root, m.path));
            o in Dispatch(s, m, reply, e).0.log
  {
    hide TempFile, Contains;
  }

  lemma PutParses(name: string, path: string, line: string)
    requires IsWord(name) && IsWord(path) && line == PrintRequest("PUT", name, path, [])
    ensures line != "" && MessageOf(line) == Message(Put, name, path, map[], true, "")
  {
    assert ToUpper("PUT") == "PUT";
    assert CommandOf("PUT") == Put;
    assert Framed(HEADER) && NoNewline(HEADER);
    hide FieldsOf, GetLine, Framed, NoNewline, Printable, MessageOf, CommandOf;
    RequestParses(HEADER, "PUT", name, path, [], "");
    assert line + "" == line;
    assert LastWins([]) == map[];
  }

  predicate IsService(o: Output) {
    o.Handled? || o.DownloadBegan? || o.UploadBegan?
  }

  /** Under public-key authentication the handler is reached, and a transfer begins, only after
      an AUTH message verified. */
  lemma NoServiceBeforeAuth(config: Config, modules: Modules, es: seq<Env>, i: nat)
    requires Gated(Fresh(config, modules))
    requires var log := Run(Fresh(config, modules), es).log;
             i < |log| && IsService(log[i])
    ensures HasVerified(Run(Fresh(config, modules), es).log[..i])
  {
    RunKeeps(config, modules, es);
    var s := Run(Fresh(config, modules), es);
    assert MayFollow(s, s.log[..i], s.log[i]);
  }

  lemma StillUnverified(log: seq<Output>, o: Output)
    requires !HasVerified(log) && !o.Verified?
    ensures !HasVerified(log + [o])
  {
    forall i | 0 <= i < |log + [o]| ensures !(log + [o])[i].Verified? {
      assert i < |log| ==> (log + [o])[i] == log[i];
    }
  }

  lemma ContinueUnverified(s: State, e: Env)
    requires !HasVerified(s.log)
    ensures !HasVerified(Continue(s, e).0.log)
  {
    StillUnverified(s.log, Uploaded);
    StillUnverified(s.log, Received(e.input[..Min(CHUNK, |e.input|)]));
    var count := Min(Min(CHUNK, s.remaining), Unread(s.download));
    if count != 0 && e.accepted >= 0 {
      var o := Data(Slice(s.download, Min(e.accepted, count)));
      StillUnverified(s.log, o);
      StillUnverified(s.log + [o], Completed);
    }
  }

  lemma SayUnverified(s: State, text: string, accepted: bool)
    requires !HasVerified(s.log)
    ensures !HasVerified(Say(s, text, accepted).0.log)
  {
    StillUnverified(s.log, Said(text));
  }

  lemma StartUnverified(s: State, m: Message, e: Env)
    requires !HasVerified(s.log)
    ensures !HasVerified(StartUpload(s, m.moduleName, m.path, e).0.log)
    ensures !HasVerified(StartDownload(s, m.moduleName, m.path, e).0.log)
  {
    hide HasVerified, Effective, TempFile;
    StillUnverified(s.log, DownloadBegan(e.content));
    StillUnverified(s.log, Begin(s, Effective(m.moduleName, s.current), m.path));
  }

  lemma DispatchUnverified(s: State, m: Message, reply: string, e: Env)
    requires !HasVerified(s.log)
    ensures !HasVerified(Dispatch(s, m, reply, e).0.log)
  {
    hide HasVerified, Contains, Continue, Effective, StartUpload, StartDownload, Say;
    StartUnverified(s, m, e);
    var s1, s2 := StartUpload(s, m.moduleName, m.path, e).0, StartDownload(s, m.moduleName, m.path, e).0;
    ContinueUnverified(s2, e);
    SayUnverified(s, reply, e.says);
    SayUnverified(s1, reply, e.says);
    SayUnverified(s2, reply, e.says);
    SayUnverified(Say(s1, reply, e.says).0, reply, e.saysAgain);
  }

  lemma TurnUnverified(s: State, e: Env)
    requires !HasVerified(s.log) && !e.credentialsHold
    ensures !HasVerified(Turn(s, e).log)
  {
    hide HasVerified, MessageOf, Contains, FormatError, Continue, Dispatch, HandleReply;
    var m := MessageOf(e.input[..Min(REQUEST_MAX, |e.input|)]);
    ContinueUnverified(s, e);
    StillUnverified(s.log, Said(FormatError(-1, "Invalid protocol message: " + m.error)));
    StillUnverified(s.log, Handled(m.command));
    DispatchUnverified(HandleState(s, m, e), m, HandleReply(s, m, e), e);
  }

  lemma {:induction false} RunUnverified(config: Config, modules: Modules, es: seq<Env>)
    requires forall e :: e in es ==> !e.credentialsHold
    ensures !HasVerified(Run(Fresh(config, modules), es).log)
  {
    if es != [] {
      RunUnverified(config, modules, es[..|es|-1]);
      TurnUnverified(Run(Fresh(config, modules), es[..|es|-1]), es[|es|-1]);
    }
  }

  /** A client whose credentials never hold gets nothing from a session under public-key
      authentication, in any run: no request reaches the handler and no file is opened. */
  lemma NoCredentialsNoService(config: Config, modules: Modules, es: seq<Env>)
    requires Gated(Fresh(config, modules)) && forall e :: e in es ==> !e.credentialsHold
    ensures var s := Run(Fresh(config, modules), es);
            s.transfer == Idle && forall i :: 0 <= i < |s.log| ==> !IsService(s.log[i])
  {
    RunKeeps(config, modules, es);
    RunUnverified(config, modules, es);
    var s := Run(Fresh(config, modules), es);
    forall i | 0 <= i < |s.log| ensures !IsService(s.log[i]) {
      assert MayFollow(s, s.log[..i], s.log[i]);
      Earlier(s.log, i);
    }
  }

  lemma Earlier(log: seq<Output>, i: nat)
    requires i <= |log| && !HasVerified(log)
    ensures !HasVerified(log[..i])
  {
    assert forall j :: 0 <= j < i ==> log[..i][j] == log[j];
  }
}
