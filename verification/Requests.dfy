/** What a session answers to each kind of request, from the text that is read to the text that is sent. */
module Requests {
  import opened Text
  import opened Protocol
  import opened Session
  import SessionSafety
  import UploadPath

  // ---------- texts ----------

  /** A request as it stands on the wire. */
  lemma PrintedAs(command: string, moduleName: string, path: string, args: seq<Argument>, a: Argument)
    ensures PrintRequest(command, moduleName, path, []) == command + " " + moduleName + " " + path
    ensures PrintRequest(command, moduleName, path, args + [a])
            == PrintRequest(command, moduleName, path, args) + " " + a.key + "=" + a.value
  {
    SpacedTwo(moduleName, path);
    MoreArguments(args, a);
    var words := [moduleName, path] + PrintArguments(args);
    assert [moduleName, path] + PrintArguments(args + [a]) == words + [a.key + "=" + a.value];
    SpacedMore(words, a.key + "=" + a.value);
    hide Spaced, PrintArguments;
    assert [moduleName, path] + [] == [moduleName, path];
    assert PrintArguments([]) == [] by {
      NoArguments();
    }
    assert command + (Spaced(words) + " " + (a.key + "=" + a.value))
        == command + Spaced(words) + " " + a.key + "=" + a.value;
  }

  lemma NoArguments()
    ensures PrintArguments([]) == []
  {
  }

  lemma SpacedTwo(a: string, b: string)
    ensures Spaced([a, b]) == " " + a + " " + b
  {
    assert [a, b][1..] == [b] && [b][1..] == [];
    assert Spaced([b]) == " " + b + "";
  }

  lemma {:induction false} SpacedMore(words: seq<string>, word: string)
    ensures Spaced(words + [word]) == Spaced(words) + " " + word
  {
    if words == [] {
      assert words + [word] == [word] && [word][1..] == [];
      assert Spaced([word]) == " " + word + Spaced([]);
    } else {
      assert (words + [word])[1..] == words[1..] + [word];
      SpacedMore(words[1..], word);
    }
  }

  lemma {:induction false} MoreArguments(args: seq<Argument>, a: Argument)
    ensures PrintArguments(args + [a]) == PrintArguments(args) + [a.key + "=" + a.value]
  {
    if args == [] {
      assert args + [a] == [a] && [a][1..] == [];
    } else {
      assert (args + [a])[1..] == args[1..] + [a];
      MoreArguments(args[1..], a);
    }
  }

  lemma ErrorTexts(text: string)
    ensures FormatError(-1, text) == "@RSYNCD: ERROR -1\n" + text + "\n"
    ensures FormatError(1, text) == "@RSYNCD: ERROR 1\n" + text + "\n"
    ensures FormatError(4, text) == "@RSYNCD: ERROR 4\n" + text + "\n"
    ensures FormatError(5, text) == "@RSYNCD: ERROR 5\n" + text + "\n"
    ensures FormatSuccess(text) == "@RSYNCD: OK\n" + text + "\n"
  {
    assert Digits(1) == "1" && Digits(4) == "4" && Digits(5) == "5";
    var head := "@RSYNCD: ERROR ";
    assert head + "-1" + "\n" == "@RSYNCD: ERROR -1\n" && head + "1" + "\n" == "@RSYNCD: ERROR 1\n";
    assert head + "4" + "\n" == "@RSYNCD: ERROR 4\n" && head + "5" + "\n" == "@RSYNCD: ERROR 5\n";
  }

  lemma LongErrorTexts(text: string)
    ensures FormatError(400, text) == "@RSYNCD: ERROR 400\n" + text + "\n"
    ensures FormatError(401, text) == "@RSYNCD: ERROR 401\n" + text + "\n"
    ensures FormatError(403, text) == "@RSYNCD: ERROR 403\n" + text + "\n"
    ensures FormatError(500, text) == "@RSYNCD: ERROR 500\n" + text + "\n"
    ensures FormatError(501, text) == "@RSYNCD: ERROR 501\n" + text + "\n"
  {
    assert Digits(4) == "4" && Digits(5) == "5";
    assert Digits(40) == "40" && Digits(50) == "50";
    assert Digits(400) == "400" && Digits(401) == "401" && Digits(403) == "403";
    assert Digits(500) == "500" && Digits(501) == "501";
    var head := "@RSYNCD: ERROR ";
    assert head + "400" + "\n" == "@RSYNCD: ERROR 400\n" && head + "401" + "\n" == "@RSYNCD: ERROR 401\n";
    assert head + "403" + "\n" == "@RSYNCD: ERROR 403\n" && head + "500" + "\n" == "@RSYNCD: ERROR 500\n";
    assert head + "501" + "\n" == "@RSYNCD: ERROR 501\n";
  }

  // ---------- requests ----------

  /** An idle session reads a whole request, printed with any name of a command. */
  predicate Asks(s: State, e: Env, command: string, moduleName: string, path: string, args: seq<Argument>) {
    && s.active && s.open && s.transfer == Idle && !e.readFails
    && e.input == PrintRequest(command, moduleName, path, args) && |e.input| <= 4095
    && CommandOf(command) != Unknown && IsWord(moduleName) && IsWord(path)
    && forall a :: a in args ==> Printable(a)
  }

  /** The session once it has sent a text, and is closed if that failed. */
  function Answered(s: State, text: string, sent: bool): State {
    s.(log := s.log + [Said(text)], active := sent, open := sent)
  }

  /** Does the session serve requests: without public-key authentication, or once a user is set? */
  predicate Serves(s: State) {
    !s.config.authEnabled || s.config.authMethod != "public_key" || s.user != ""
  }

  predicate Gives(args: seq<Argument>, key: string) {
    exists i :: 0 <= i < |args| && args[i].key == key
  }

  lemma {:induction false} GivenKeys(args: seq<Argument>, key: string)
    ensures key in LastWins(args) <==> Gives(args, key)
  {
    if args != [] {
      var front, last := args[..|args| - 1], args[|args| - 1];
      GivenKeys(front, key);
      if Gives(front, key) {
        var i :| 0 <= i < |front| && front[i].key == key;
        assert args[i].key == key;
      }
      if Gives(args, key) && last.key != key {
        var i :| 0 <= i < |args| && args[i].key == key;
        assert front[i].key == key;
      }
    }
  }

  lemma Understood(s: State, e: Env, command: string, moduleName: string, path: string, args: seq<Argument>)
    requires Asks(s, e, command, moduleName, path, args)
    ensures var m := Message(CommandOf(command), moduleName, path, LastWins(args), true, "");
            && m.moduleName != "" && m.path != "" && NoSpace(moduleName) && NoSpace(path)
            && Process(s, e) == Dispatch(HandleState(s, m, e), m, HandleReply(s, m, e), e)
  {
    var m := Message(CommandOf(command), moduleName, path, LastWins(args), true, "");
    assert e.input != "" && MessageOf(e.input) == m by {
      Parsed(command, moduleName, path, args);
    }
    assert e.input[..|e.input|] == e.input;
    hide MessageOf, CommandOf, PrintRequest, LastWins, HandleState, HandleReply, Dispatch, Printable;
  }

  lemma Parsed(command: string, moduleName: string, path: string, args: seq<Argument>)
    requires CommandOf(command) != Unknown && IsWord(moduleName) && IsWord(path)
    requires forall a :: a in args ==> Printable(a)
    ensures var line := PrintRequest(command, moduleName, path, args);
            && line != ""
            && MessageOf(line) == Message(CommandOf(command), moduleName, path, LastWins(args), true, "")
  {
    assert Framed(HEADER) && NoNewline(HEADER);
    hide FieldsOf, GetLine, Framed, NoNewline, Printable, MessageOf, CommandOf, PrintRequest, LastWins;
    RequestIsLine(command, moduleName, path, args);
    RequestParses(HEADER, command, moduleName, path, args, "");
    NothingMore(PrintRequest(command, moduleName, path, args));
  }

  lemma NothingMore(line: string)
    ensures line + "" == line
  {
  }

  function AsMessage(command: string, moduleName: string, path: string, args: seq<Argument>): Message {
    Message(CommandOf(command), moduleName, path, LastWins(args), true, "")
  }

  /** A turn whose request is only answered. */
  lemma Replies(s: State, e: Env, command: string, moduleName: string, path: string, args: seq<Argument>, t: State,
                reply: string)
    requires Asks(s, e, command, moduleName, path, args) && t.active && t.open
    requires var m := AsMessage(command, moduleName, path, args);
             && HandleState(s, m, e) == t && HandleReply(s, m, e) == reply
             && (m.command == Get ==> !Contains(reply, READY_TO_SEND))
             && (m.command == Put ==> !Contains(reply, READY_TO_RECEIVE))
    ensures Turn(s, e) == Answered(t, reply, e.says)
  {
    Understood(s, e, command, moduleName, path, args);
    hide Contains, CommandOf, LastWins, Process, HandleState, HandleReply;
    assert s.active;
  }

  lemma GateReply(s: State, e: Env, m: Message)
    requires m.moduleName != "" && m.command != Auth && !Serves(s)
    ensures HandleState(s, m, e) == s.(current := m.moduleName)
    ensures HandleReply(s, m, e) == FormatError(401, "Authentication required: send AUTH command")
    ensures !Contains(HandleReply(s, m, e), READY_TO_RECEIVE) && !Contains(HandleReply(s, m, e), READY_TO_SEND)
  {
    SessionSafety.GateReplyPlain(s, m, e);
    hide FormatError, Contains;
  }

  lemma AskedFacts(s: State, e: Env, command: string, moduleName: string, path: string, args: seq<Argument>)
    requires Asks(s, e, command, moduleName, path, args)
    ensures s.active && s.open && s.transfer == Idle && moduleName != "" && path != ""
    ensures NoSpace(moduleName) && NoSpace(path)
  {
    hide CommandOf, PrintRequest, Printable, NoSpace;
  }

  /** Under public-key authentication, and before a user is set, every request but AUTH is refused. */
  lemma Unauthenticated(s: State, e: Env, command: string, moduleName: string, path: string, args: seq<Argument>)
    requires Asks(s, e, command, moduleName, path, args) && CommandOf(command) != Auth && !Serves(s)
    ensures Turn(s, e) == Answered(s.(current := moduleName),
            "@RSYNCD: ERROR 401\n" + "Authentication required: send AUTH command" + "\n", e.says)
  {
    var m := AsMessage(command, moduleName, path, args);
    AskedFacts(s, e, command, moduleName, path, args);
    LongErrorTexts("Authentication required: send AUTH command");
    hide Asks, Contains, FormatError, HandleState, HandleReply, Turn, Answered, CommandOf;
    GateReply(s, e, m);
    Replies(s, e, command, moduleName, path, args, s.(current := moduleName), HandleReply(s, m, e));
  }

  // ---------- uploads ----------

  lemma PutReply(s: State, e: Env, m: Message)
    requires m.command == Put && NoSpace(m.moduleName) && m.moduleName != "" && Serves(s)
    ensures HandleState(s, m, e) == s.(current := m.moduleName, log := s.log + [Handled(Put)])
    ensures HandleReply(s, m, e) == HandlePut(s.modules, m.moduleName, m)
    ensures Contains(HandleReply(s, m, e), READY_TO_RECEIVE)
            <==> m.moduleName in s.modules && !s.modules[m.moduleName].readOnly
  {
    PutReplyDecides(s.modules, m.moduleName, m);
    hide HandlePut, Contains, NoSpace;
  }

  lemma PutTexts(modules: Modules, m: Message)
    requires m.moduleName != ""
    ensures HandlePut(modules, m.moduleName, m)
            == if m.moduleName !in modules then "@RSYNCD: ERROR 1\n" + ("Module not found: " + m.moduleName) + "\n"
               else if modules[m.moduleName].readOnly then
                 "@RSYNCD: ERROR 5\n" + ("Module is read-only: " + m.moduleName) + "\n"
               else "@RSYNCD: OK\n" + "Ready to receive file: " + m.path + "\n" + "Send file data\n"
  {
    ErrorTexts("Module not found: " + m.moduleName);
    ErrorTexts("Module is read-only: " + m.moduleName);
    hide FormatError;
  }

  /** A PUT that names no known module, or a read-only one, is answered with the error and does nothing else. */
  lemma PutRefused(s: State, e: Env, command: string, moduleName: string, path: string, args: seq<Argument>)
    requires Asks(s, e, command, moduleName, path, args) && CommandOf(command) == Put && Serves(s)
    requires moduleName !in s.modules || s.modules[moduleName].readOnly
    ensures Turn(s, e) == Answered(s.(current := moduleName, log := s.log + [Handled(Put)]),
            if moduleName !in s.modules then "@RSYNCD: ERROR 1\n" + ("Module not found: " + moduleName) + "\n"
            else "@RSYNCD: ERROR 5\n" + ("Module is read-only: " + moduleName) + "\n", e.says)
  {
    var m := AsMessage(command, moduleName, path, args);
    AskedFacts(s, e, command, moduleName, path, args);
    PutReply(s, e, m);
    PutTexts(s.modules, m);
    hide Asks, Contains, HandlePut, HandleState, HandleReply, Turn, Answered, CommandOf, Serves;
    Replies(s, e, command, moduleName, path, args, s.(current := moduleName, log := s.log + [Handled(Put)]),
      HandleReply(s, m, e));
  }

  /** The session that receives an upload. */
  function Opened(s: State, moduleName: string, path: string): State
    requires moduleName in s.modules
  {
    var file := UploadPath.TempFile(s.modules[moduleName].root, path);
    s.(current := moduleName, transferModule := moduleName, transferPath := path, transfer := Receiving,
      upload := Writing(file, ""), remaining := 0,
      log := s.log + [Handled(Put)] + [UploadBegan(moduleName, path, file)])
  }

  /** A PUT into a writable module opens the temporary file and announces it. When the first announcement
      fails it is made a second time, and the session goes on if that is sent; it is left receiving in
      either case. A file that cannot be opened is announced all the same, and a directory that cannot be
      made ends the session without a word. */
  lemma PutTaken(s: State, e: Env, command: string, moduleName: string, path: string, args: seq<Argument>)
    requires Asks(s, e, command, moduleName, path, args) && CommandOf(command) == Put && Serves(s)
    requires moduleName in s.modules && !s.modules[moduleName].readOnly
    ensures var ready := "@RSYNCD: OK\n" + "Ready to receive file: " + path + "\n" + "Send file data\n";
            var named := s.(current := moduleName, transferModule := moduleName, transferPath := path,
                            log := s.log + [Handled(Put)]);
            Turn(s, e)
            == if e.directoriesFail then named.(active := false, open := false)
               else if !e.tempOpens then Answered(named, ready, e.says)
               else if e.says then Answered(Opened(s, moduleName, path), ready, true)
               else Answered(Answered(Opened(s, moduleName, path), ready, true), ready, e.saysAgain)
  {
    var m := AsMessage(command, moduleName, path, args);
    AskedFacts(s, e, command, moduleName, path, args);
    Understood(s, e, command, moduleName, path, args);
    PutReply(s, e, m);
    PutTexts(s.modules, m);
    hide Asks, Contains, HandlePut, HandleState, HandleReply, CommandOf, Serves, Process, LastWins, UploadPath.TempFile;
  }

  // ---------- downloads ----------

  lemma GetReply(s: State, e: Env, m: Message)
    requires m.command == Get && m.moduleName != "" && Serves(s)
    ensures HandleState(s, m, e) == s.(current := m.moduleName, log := s.log + [Handled(Get)])
    ensures HandleReply(s, m, e) == HandleGet(s.modules, m.moduleName, m, e.found, e.details)
  {
    hide HandleGet;
  }

  lemma GetTexts(modules: Modules, m: Message, found: bool, details: string)
    requires m.moduleName != "" && NoSpace(m.moduleName) && NoSpace(m.path)
    ensures HandleGet(modules, m.moduleName, m, found, details)
            == if m.moduleName !in modules then "@RSYNCD: ERROR 1\n" + ("Module not found: " + m.moduleName) + "\n"
               else if !found then "@RSYNCD: ERROR 4\n" + ("File not found: " + m.path) + "\n"
               else "@RSYNCD: OK\n" + details + "Ready for transfer\n"
    ensures Contains(HandleGet(modules, m.moduleName, m, found, details), READY_TO_SEND)
            <==> m.moduleName in modules && found
  {
    ErrorTexts("Module not found: " + m.moduleName);
    ErrorTexts("File not found: " + m.path);
    ErrorHeadPlain(1);
    ErrorHeadPlain(4);
    NotReady(ErrorHead(1), "Module not found: ", m.moduleName, READY_TO_SEND);
    NotReady(ErrorHead(4), "File not found: ", m.path, READY_TO_SEND);
    DetailsReady(details);
    hide Contains, ErrorHead, NoSpace;
  }

  lemma DetailsReady(details: string)
    ensures Contains("@RSYNCD: OK\n" + details + "Ready for transfer\n", READY_TO_SEND)
  {
    var front, last := "@RSYNCD: OK\n" + details, "Ready for transfer\n";
    assert last[..|READY_TO_SEND|] == READY_TO_SEND;
    assert (front + last)[|front|..|front| + |READY_TO_SEND|] == last[..|READY_TO_SEND|];
    assert MatchesAt(front + last, READY_TO_SEND, |front|);
  }

  /** A GET that names no known module, or no file, is answered with the error and does nothing else. */
  lemma GetRefused(s: State, e: Env, command: string, moduleName: string, path: string, args: seq<Argument>)
    requires Asks(s, e, command, moduleName, path, args) && CommandOf(command) == Get && Serves(s)
    requires moduleName !in s.modules || !e.found
    ensures Turn(s, e) == Answered(s.(current := moduleName, log := s.log + [Handled(Get)]),
            if moduleName !in s.modules then "@RSYNCD: ERROR 1\n" + ("Module not found: " + moduleName) + "\n"
            else "@RSYNCD: ERROR 4\n" + ("File not found: " + path) + "\n", e.says)
  {
    var m := AsMessage(command, moduleName, path, args);
    AskedFacts(s, e, command, moduleName, path, args);
    GetReply(s, e, m);
    GetTexts(s.modules, m, e.found, e.details);
    hide Asks, Contains, HandleGet, HandleState, HandleReply, Turn, Answered, CommandOf, Serves;
    Replies(s, e, command, moduleName, path, args, s.(current := moduleName, log := s.log + [Handled(Get)]),
      HandleReply(s, m, e));
  }

  /** A GET for a file begins the download, and sends its first chunk in the same turn instead of a reply;
      if the file cannot be opened after all it is announced, and nothing follows. */
  lemma GetTaken(s: State, e: Env, command: string, moduleName: string, path: string, args: seq<Argument>)
    requires Asks(s, e, command, moduleName, path, args) && CommandOf(command) == Get && Serves(s)
    requires moduleName in s.modules && e.found
    ensures var named := s.(current := moduleName, transferModule := moduleName, transferPath := path,
                            log := s.log + [Handled(Get)]);
            var begun := named.(transfer := Sending, download := Reading(e.content, 0), remaining := |e.content|,
                                sent := 0, log := named.log + [DownloadBegan(e.content)]);
            Turn(s, e)
            == if e.infoFound && e.fileOpens then Turn(begun, e)
               else Answered(named, "@RSYNCD: OK\n" + e.details + "Ready for transfer\n", e.says)
  {
    var m := AsMessage(command, moduleName, path, args);
    AskedFacts(s, e, command, moduleName, path, args);
    Understood(s, e, command, moduleName, path, args);
    GetReply(s, e, m);
    GetTexts(s.modules, m, e.found, e.details);
    hide Asks, Contains, HandleGet, HandleState, HandleReply, CommandOf, Serves, LastWins, Continue, NoSpace;
  }

  // ---------- other requests ----------

  /** LIST, DELETE and STAT go to the handler, and its reply to the client. */
  lemma OthersAnswered(s: State, e: Env, command: string, moduleName: string, path: string, args: seq<Argument>)
    requires Asks(s, e, command, moduleName, path, args) && Serves(s)
    requires CommandOf(command) == List || CommandOf(command) == Delete || CommandOf(command) == Stat
    ensures Turn(s, e) == Answered(s.(current := moduleName, log := s.log + [Handled(CommandOf(command))]),
            e.otherReply, e.says)
  {
    var m := AsMessage(command, moduleName, path, args);
    AskedFacts(s, e, command, moduleName, path, args);
    OtherReply(s, e, m);
    hide Asks, HandleState, HandleReply, Turn, Answered, CommandOf, Serves;
    Replies(s, e, command, moduleName, path, args, s.(current := moduleName, log := s.log + [Handled(m.command)]),
      e.otherReply);
  }

  lemma OtherReply(s: State, e: Env, m: Message)
    requires m.command == List || m.command == Delete || m.command == Stat
    requires m.moduleName != "" && Serves(s)
    ensures HandleState(s, m, e) == s.(current := m.moduleName, log := s.log + [Handled(m.command)])
    ensures HandleReply(s, m, e) == e.otherReply
  {
  }

  /** AUTH sets the user it names exactly when there is a manager, the proof the method asks for is given, and
      it holds. */
  lemma AuthAnswered(s: State, e: Env, command: string, moduleName: string, path: string, args: seq<Argument>)
    requires Asks(s, e, command, moduleName, path, args) && CommandOf(command) == Auth
    ensures var c, named := s.config, s.(current := moduleName);
            var asked := c.authMethod == "public_key" || c.authMethod == "password";
            var given := Gives(args, if c.authMethod == "public_key" then "signature" else "password");
            Turn(s, e)
            == if !c.authEnabled then
                 Answered(named.(user := "anonymous"), "@RSYNCD: OK\n" + "Authentication disabled" + "\n", e.says)
               else if asked && given && c.hasAuthManager && e.credentialsHold then
                 Answered(named.(user := moduleName, log := s.log + [Verified(moduleName)]),
                   "@RSYNCD: OK\n" + ("Authenticated: " + moduleName) + "\n", e.says)
               else
                 Answered(named,
                   if !asked then "@RSYNCD: ERROR 501\n" + "Unsupported authentication method" + "\n"
                   else if c.authMethod == "public_key" && !c.hasAuthManager then
                     "@RSYNCD: ERROR 500\n" + "Authentication manager unavailable" + "\n"
                   else if c.authMethod == "public_key" && !given then
                     "@RSYNCD: ERROR 400\n" + "AUTH requires: AUTH <user> <challenge> signature=<base64_ssh_sig>" + "\n"
                   else if c.authMethod == "public_key" then
                     "@RSYNCD: ERROR 403\n" + "Public key authentication failed" + "\n"
                   else if !given then
                     "@RSYNCD: ERROR 400\n" + "AUTH requires: AUTH <user> _ password=<secret>" + "\n"
                   else "@RSYNCD: ERROR 403\n" + "Password authentication failed" + "\n", e.says)
  {
    var m := AsMessage(command, moduleName, path, args);
    AskedFacts(s, e, command, moduleName, path, args);
    GivenKeys(args, "signature");
    GivenKeys(args, "password");
    ErrorTexts("Authentication disabled");
    ErrorTexts("Authenticated: " + moduleName);
    LongErrorTexts("Unsupported authentication method");
    LongErrorTexts("Authentication manager unavailable");
    LongErrorTexts("AUTH requires: AUTH <user> <challenge> signature=<base64_ssh_sig>");
    LongErrorTexts("Public key authentication failed");
    LongErrorTexts("AUTH requires: AUTH <user> _ password=<secret>");
    LongErrorTexts("Password authentication failed");
    hide Asks, FormatError, FormatSuccess, LastWins, Gives, CommandOf, Answered, Turn;
    Replies(s, e, command, moduleName, path, args, HandleState(s, m, e), HandleReply(s, m, e));
  }

  lemma SendingIgnoresInput(s: State, e: Env, input: string)
    requires s.transfer != Receiving
    ensures Continue(s, e) == Continue(s, e.(input := input))
  {
  }

  lemma DispatchIgnoresInput(s: State, m: Message, reply: string, e: Env, input: string)
    requires s.transfer == Idle
    ensures Dispatch(s, m, reply, e) == Dispatch(s, m, reply, e.(input := input))
  {
    var t := StartDownload(s, m.moduleName, m.path, e).0;
    SendingIgnoresInput(t, e, input);
    hide Contains, Continue, UploadPath.TempFile, Say;
  }

  lemma HandleIgnoresInput(s: State, m: Message, e: Env, input: string)
    ensures HandleState(s, m, e) == HandleState(s, m, e.(input := input))
    ensures HandleReply(s, m, e) == HandleReply(s, m, e.(input := input))
  {
    hide FormatError, FormatSuccess, HandlePut, HandleGet;
  }

  /** Of what is read, no more than 4095 bytes are looked at. */
  lemma RequestIsCut(s: State, e: Env)
    requires s.transfer == Idle && |e.input| > 4095
    ensures Turn(s, e) == Turn(s, e.(input := e.input[..4095]))
  {
    var input := e.input[..4095];
    assert input[..4095] == input && input != "";
    var m := MessageOf(input);
    HandleIgnoresInput(s, m, e, input);
    HandleStaysIdle(s, m, e);
    DispatchIgnoresInput(HandleState(s, m, e), m, HandleReply(s, m, e), e, input);
    hide MessageOf, FormatError, HandleReply, Dispatch, HandleState;
    assert Process(s, e) == Process(s, e.(input := input));
  }

  lemma HandleStaysIdle(s: State, m: Message, e: Env)
    ensures HandleState(s, m, e).transfer == s.transfer
  {
  }
}
