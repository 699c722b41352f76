/** The request grammar, its parser, and the handler replies the session acts on. */
module Protocol {
  import opened Text
  import ModulePath

  datatype Command = List | Get | Put | Delete | Stat | Auth | Unknown

  datatype Message = Message(
    command: Command, moduleName: string, path: string,
    arguments: map<string, string>, valid: bool, error: string)

  const EMPTY_MESSAGE := Message(Unknown, "", "", map[], false, "")

  const HEADER := "@RSYNCD:"

  function ToUpper(s: string): string {
    seq(|s|, i requires 0 <= i < |s| => if 'a' <= s[i] <= 'z' then (s[i] as int - 32) as char else s[i])
  }

  function CommandOf(word: string): Command {
    var c := ToUpper(word);
    if c == "LIST" || c == "LS" then List
    else if c == "GET" || c == "DOWNLOAD" then Get
    else if c == "PUT" || c == "UPLOAD" || c == "SEND" then Put
    else if c == "DELETE" || c == "DEL" || c == "RM" then Delete
    else if c == "STAT" || c == "STATUS" || c == "INFO" then Stat
    else if c == "AUTH" || c == "LOGIN" then Auth
    else Unknown
  }

  /** The names of the commands; case does not matter. */
  lemma CommandNames(word: string)
    ensures CommandOf(word) == List <==> ToUpper(word) in ["LIST", "LS"]
    ensures CommandOf(word) == Get <==> ToUpper(word) in ["GET", "DOWNLOAD"]
    ensures CommandOf(word) == Put <==> ToUpper(word) in ["PUT", "UPLOAD", "SEND"]
    ensures CommandOf(word) == Delete <==> ToUpper(word) in ["DELETE", "DEL", "RM"]
    ensures CommandOf(word) == Stat <==> ToUpper(word) in ["STAT", "STATUS", "INFO"]
    ensures CommandOf(word) == Auth <==> ToUpper(word) in ["AUTH", "LOGIN"]
  {
    hide ToUpper;
    assert "LIST"[0] == 'L' && "LS"[0] == 'L' && "LS"[1] == 'S' && "GET"[0] == 'G' && "DOWNLOAD"[1] == 'O';
    assert "PUT"[0] == 'P' && "UPLOAD"[0] == 'U' && "SEND"[1] == 'E' && "DELETE"[3] == 'E' && "DEL"[0] == 'D';
    assert "RM"[0] == 'R' && "STAT"[1] == 'T' && "STATUS"[1] == 'T' && "INFO"[0] == 'I';
    assert "AUTH"[0] == 'A' && "LOGIN"[1] == 'O' && "LIST"[1] == 'I';
  }

  lemma UpperCase(word: string)
    ensures |ToUpper(word)| == |word|
    ensures forall i :: 0 <= i < |word| ==>
            ToUpper(word)[i] as int == if 97 <= word[i] as int <= 122 then word[i] as int - 32 else word[i] as int
  {
  }

  // ---------- the parser, one helper a field ----------

  function ParseCommand(line: string): Command {
    CommandOf(ExtractWord(line).0)
  }

  function ParseModule(line: string): string {
    ExtractWord(ExtractWord(line).1).0
  }

  function ParsePath(line: string): string {
    ExtractWord(ExtractWord(ExtractWord(line).1).1).0
  }

  method ParseArguments(line: string) returns (args: map<string, string>)
    ensures args == ArgumentsOf(map[], From(Tokens(line), 3))
  {
    args := map[];
    var rest := line;
    rest := ExtractWord(rest).1;
    rest := ExtractWord(rest).1;
    rest := ExtractWord(rest).1;
    assert Tokens(rest) == From(Tokens(line), 3) by {
      AfterWords(line);
    }
    var next := ExtractWord(rest);
    while next.0 != ""
      invariant next == ExtractWord(rest)
      invariant ArgumentsOf(args, Tokens(rest)) == ArgumentsOf(map[], From(Tokens(line), 3))
      decreases |rest|
    {
      var token := next.0;
      var eq := Find(token, "=", 0);
      if eq != -1 {
        var key := token[..eq];
        var value := token[eq + 1..];
        args := args[key := value];
      }
      rest := next.1;
      next := ExtractWord(rest);
    }
  }

  method Parse(data: string) returns (message: Message)
    ensures message == MessageOf(data)
  {
    message := EMPTY_MESSAGE;
    if data == "" {
      return message.(error := "Empty data");
    }
    var (line, rest) := GetLine(data);
    FieldsAgree(line);
    if Find(line, HEADER, 0) != 0 {
      message := message.(command := ParseCommand(line));
      if message.command != Unknown {
        var arguments := ParseArguments(line);
        message := message.(moduleName := ParseModule(line), path := ParsePath(line), arguments := arguments);
        message := message.(valid := message.moduleName != "");
      }
      return message;
    }
    if rest != "" {
      line := GetLine(rest).0;
      FieldsAgree(line);
      var arguments := ParseArguments(line);
      message := message.(command := ParseCommand(line), moduleName := ParseModule(line), path := ParsePath(line));
      message := message.(arguments := arguments, valid := message.command != Unknown);
    }
  }

  // ---------- what a request line means: one tokenisation ----------

  function At(words: seq<string>, i: nat): string {
    if i < |words| then words[i] else ""
  }

  function From(words: seq<string>, i: nat): seq<string> {
    if i <= |words| then words[i..] else []
  }

  /** Words with '=' set a key, the first '=' ending it; other words are skipped. */
  function ArgumentsOf(args: map<string, string>, words: seq<string>): map<string, string>
    decreases |words|
  {
    if words == [] then args
    else
      var eq := Find(words[0], "=", 0);
      ArgumentsOf(if eq == -1 then args else args[words[0][..eq] := words[0][eq + 1..]], words[1..])
  }

  function FieldsOf(line: string): Message {
    var ts := Tokens(line);
    Message(CommandOf(At(ts, 0)), At(ts, 1), At(ts, 2), ArgumentsOf(map[], From(ts, 3)), false, "")
  }

  predicate Framed(line: string) {
    HEADER <= line
  }

  /** A framed request has its header on the first line and its command on the second; a bare
      request is a command line, and must name a module. */
  function MessageOf(data: string): Message {
    if data == "" then EMPTY_MESSAGE.(error := "Empty data")
    else
      var (line, rest) := GetLine(data);
      if Framed(line) then
        if rest == "" then EMPTY_MESSAGE
        else
          var m := FieldsOf(GetLine(rest).0);
          m.(valid := m.command != Unknown)
      else
        var m := FieldsOf(line);
        if m.command == Unknown then EMPTY_MESSAGE else m.(valid := m.moduleName != "")
  }

  lemma AfterWords(line: string)
    ensures var rest := ExtractWord(ExtractWord(ExtractWord(line).1).1).1;
            Tokens(rest) == From(Tokens(line), 3)
    ensures ExtractWord(line).0 == At(Tokens(line), 0)
    ensures ExtractWord(ExtractWord(line).1).0 == At(Tokens(line), 1)
    ensures ExtractWord(ExtractWord(ExtractWord(line).1).1).0 == At(Tokens(line), 2)
  {
    AfterWord(line);
    AfterWord(ExtractWord(line).1);
    AfterWord(ExtractWord(ExtractWord(line).1).1);
  }

  lemma AfterWord(line: string)
    ensures ExtractWord(line).0 == At(Tokens(line), 0)
    ensures Tokens(ExtractWord(line).1) == From(Tokens(line), 1)
  {
    assert Tokens("") == [];
  }

  /** The separate tokenisations of command, module and path agree with a single one. */
  lemma FieldsAgree(line: string)
    ensures ParseCommand(line) == FieldsOf(line).command
    ensures ParseModule(line) == FieldsOf(line).moduleName
    ensures ParsePath(line) == FieldsOf(line).path
    ensures Find(line, HEADER, 0) == 0 <==> Framed(line)
  {
    AfterWords(line);
    if Framed(line) {
      FindIs(line, HEADER, 0, 0);
    }
  }

  // ---------- printing and parsing back ----------

  datatype Argument = Argument(key: string, value: string)

  predicate Printable(a: Argument) {
    NoSpace(a.key) && NoSpace(a.value) && '=' !in a.key
  }

  function PrintArguments(args: seq<Argument>): seq<string> {
    if args == [] then [] else [args[0].key + "=" + args[0].value] + PrintArguments(args[1..])
  }

  function PrintRequest(command: string, moduleName: string, path: string, args: seq<Argument>): string {
    command + Spaced([moduleName, path] + PrintArguments(args))
  }

  /** The map in which the last of several values given for one key counts. */
  function LastWins(args: seq<Argument>): map<string, string> {
    if args == [] then map[]
    else LastWins(args[..|args|-1])[args[|args|-1].key := args[|args|-1].value]
  }

  lemma PrintedWords(args: seq<Argument>)
    requires forall a :: a in args ==> Printable(a)
    ensures |PrintArguments(args)| == |args|
    ensures forall i :: 0 <= i < |args| ==>
              IsWord(PrintArguments(args)[i]) && PrintArguments(args)[i] == args[i].key + "=" + args[i].value
  {
    if args != [] {
      PrintedWords(args[1..]);
      assert Printable(args[0]);
    }
  }

  lemma SplitAtEquals(a: Argument)
    requires Printable(a)
    ensures var w := a.key + "=" + a.value;
            Find(w, "=", 0) == |a.key| && w[..|a.key|] == a.key && w[|a.key| + 1..] == a.value
  {
    var w := a.key + "=" + a.value;
    OneChar(w, '=', |a.key|);
    forall i | 0 <= i < |a.key| ensures !MatchesAt(w, "=", i) {
      OneChar(w, '=', i);
      assert w[i] == a.key[i];
    }
    FindIs(w, "=", 0, |a.key|);
  }

  function Merged(base: map<string, string>, args: seq<Argument>): map<string, string>
    decreases |args|
  {
    if args == [] then base else Merged(base[args[0].key := args[0].value], args[1..])
  }

  lemma {:induction false} ArgumentsOfPrinted(base: map<string, string>, args: seq<Argument>)
    requires forall a :: a in args ==> Printable(a)
    ensures ArgumentsOf(base, PrintArguments(args)) == Merged(base, args)
    decreases |args|
  {
    if args != [] {
      assert Printable(args[0]);
      SplitAtEquals(args[0]);
      ArgumentsOfPrinted(base[args[0].key := args[0].value], args[1..]);
      assert PrintArguments(args)[1..] == PrintArguments(args[1..]);
    }
  }

  lemma {:induction false} MergedAppend(base: map<string, string>, args: seq<Argument>, a: Argument)
    ensures Merged(base, args + [a]) == Merged(base, args)[a.key := a.value]
    decreases |args|
  {
    if args == [] {
      assert args + [a] == [a];
    } else {
      MergedAppend(base[args[0].key := args[0].value], args[1..], a);
      assert (args + [a])[1..] == args[1..] + [a];
    }
  }

  lemma {:induction false} MergedLastWins(args: seq<Argument>)
    ensures Merged(map[], args) == LastWins(args)
  {
    if args != [] {
      MergedLastWins(args[..|args|-1]);
      MergedAppend(map[], args[..|args|-1], args[|args|-1]);
      assert args[..|args|-1] + [args[|args|-1]] == args;
    }
  }

  /** A printed request parses to the fields it was printed from, the last value of a repeated
      key winning. */
  lemma ParsePrinted(command: string, moduleName: string, path: string, args: seq<Argument>)
    requires IsWord(command) && IsWord(moduleName) && IsWord(path)
    requires forall a :: a in args ==> Printable(a)
    ensures FieldsOf(PrintRequest(command, moduleName, path, args))
            == Message(CommandOf(command), moduleName, path, LastWins(args), false, "")
  {
    PrintedWords(args);
    var words := [moduleName, path] + PrintArguments(args);
    TokensOfPrinted(command, words);
    var ts := [command] + words;
    assert ts[3..] == PrintArguments(args);
    ArgumentsOfPrinted(map[], args);
    MergedLastWins(args);
  }

  /** Giving a command line with or without a frame makes no difference to its fields when its
      command is known, nor to its validity when it also names a module; without a module only
      the framed form is valid. */
  lemma FramedAndBare(header: string, line: string, newline: string)
    requires Framed(header) && NoNewline(header)
    requires line != "" && NoNewline(line) && !Framed(line)
    requires newline == "" || newline == "\n"
    ensures var framed := MessageOf(header + "\n" + line + newline);
            var bare := MessageOf(line + newline);
            && framed.command == bare.command
            && framed.valid == (framed.command != Unknown)
            && bare.valid == (framed.valid && framed.moduleName != "")
            && (framed.command != Unknown ==> framed.(valid := bare.valid) == bare)
  {
    hide GetLine, FieldsOf, Framed, NoNewline;
    GetLineOf(header, line + newline);
    Regroup(header + "\n", line, newline);
    LineEnd(line, newline);
  }

  lemma LineEnd(line: string, newline: string)
    requires NoNewline(line) && (newline == "" || newline == "\n")
    ensures GetLine(line + newline) == (line, "")
  {
    hide GetLine;
    GetLineOf(line, "");
    assert line + "\n" + "" == line + "\n";
    assert line + "" == line;
  }

  predicate IsUpper(s: string) {
    s != "" && forall i :: 0 <= i < |s| ==> 'A' <= s[i] <= 'Z'
  }

  lemma UpperIsWord(word: string)
    requires IsUpper(ToUpper(word))
    ensures IsWord(word) && word[0] != '@'
  {
    forall i | 0 <= i < |word| ensures !IsSpace(word[i]) && word[i] != '@' {
      assert 'A' <= ToUpper(word)[i] <= 'Z';
    }
  }

  lemma NamesAreUpper()
    ensures IsUpper("LIST") && IsUpper("LS") && IsUpper("GET") && IsUpper("DOWNLOAD")
    ensures IsUpper("PUT") && IsUpper("UPLOAD") && IsUpper("SEND")
    ensures IsUpper("DELETE") && IsUpper("DEL") && IsUpper("RM")
    ensures IsUpper("STAT") && IsUpper("STATUS") && IsUpper("INFO")
    ensures IsUpper("AUTH") && IsUpper("LOGIN")
  {
  }

  /** Every name of a command is a word of letters. */
  lemma KnownIsWord(word: string)
    requires CommandOf(word) != Unknown
    ensures IsWord(word) && word[0] != '@'
  {
    hide IsUpper, ToUpper;
    NamesAreUpper();
    UpperIsWord(word);
  }

  lemma {:induction false} SpacedNoNewline(words: seq<string>)
    requires forall i :: 0 <= i < |words| ==> NoSpace(words[i])
    ensures NoNewline(Spaced(words))
  {
    if words != [] {
      SpacedNoNewline(words[1..]);
    }
  }

  lemma RequestIsLine(command: string, moduleName: string, path: string, args: seq<Argument>)
    requires CommandOf(command) != Unknown && IsWord(moduleName) && IsWord(path)
    requires forall a :: a in args ==> Printable(a)
    ensures var line := PrintRequest(command, moduleName, path, args);
            line != "" && NoNewline(line) && !Framed(line)
  {
    KnownIsWord(command);
    PrintedWords(args);
    SpacedNoNewline([moduleName, path] + PrintArguments(args));
    hide CommandOf, Spaced, PrintArguments;
    var line := PrintRequest(command, moduleName, path, args);
    assert line[0] == command[0];
  }

  /** A request printed with any name of a command parses to the fields it was printed from, and is
      valid, on its own and behind a header line. */
  lemma RequestParses(header: string, command: string, moduleName: string, path: string, args: seq<Argument>,
                      newline: string)
    requires CommandOf(command) != Unknown && IsWord(moduleName) && IsWord(path)
    requires forall a :: a in args ==> Printable(a)
    requires Framed(header) && NoNewline(header) && (newline == "" || newline == "\n")
    ensures var line := PrintRequest(command, moduleName, path, args);
            var message := Message(CommandOf(command), moduleName, path, LastWins(args), true, "");
            MessageOf(line + newline) == message && MessageOf(header + "\n" + line + newline) == message
  {
    var line := PrintRequest(command, moduleName, path, args);
    KnownIsWord(command);
    RequestIsLine(command, moduleName, path, args);
    ParsePrinted(command, moduleName, path, args);
    hide CommandOf, FieldsOf, PrintRequest, GetLine, Framed, NoNewline, Printable, LastWins;
    LineEnd(line, newline);
    FramedAndBare(header, line, newline);
  }

  lemma {:induction false} ParsedModuleIsWord(data: string)
    ensures NoSpace(MessageOf(data).moduleName) && NoSpace(MessageOf(data).path)
  {
    if data != "" {
      var (line, rest) := GetLine(data);
      var ts := Tokens(if Framed(line) then GetLine(rest).0 else line);
      assert NoSpace(At(ts, 1)) && NoSpace(At(ts, 2));
    }
  }

  // ---------- replies ----------

  function Digits(n: nat): string {
    if n < 10 then [(n + '0' as int) as char] else Digits(n / 10) + [(n % 10 + '0' as int) as char]
  }

  function Decimal(n: int): string {
    if n < 0 then "-" + Digits(-n) else Digits(n)
  }

  function FormatSuccess(message: string): string {
    "@RSYNCD: OK\n" + message + "\n"
  }

  function ErrorHead(code: int): string {
    "@RSYNCD: ERROR " + Decimal(code) + "\n"
  }

  function FormatError(code: int, message: string): string {
    ErrorHead(code) + message + "\n"
  }

  /** What the handler and the session know of a module. */
  datatype ModuleInfo = ModuleInfo(readOnly: bool, root: ModulePath.Root)

  type Modules = map<string, ModuleInfo>

  function Effective(moduleName: string, current: string): string {
    if moduleName == "" then current else moduleName
  }

  const READY_TO_SEND := "Ready for transfer"
  const READY_TO_RECEIVE := "Ready to receive file"

  function HandlePut(modules: Modules, current: string, m: Message): string {
    var name := Effective(m.moduleName, current);
    if name !in modules then FormatError(1, "Module not found: " + name)
    else if modules[name].readOnly then FormatError(5, "Module is read-only: " + name)
    else "@RSYNCD: OK\n" + "Ready to receive file: " + m.path + "\n" + "Send file data\n"
  }

  /** `found` is the file check's verdict, `details` the file's name, size and path lines. */
  function HandleGet(modules: Modules, current: string, m: Message, found: bool, details: string): string {
    var name := Effective(m.moduleName, current);
    if name !in modules then FormatError(1, "Module not found: " + name)
    else if !found then FormatError(4, "File not found: " + m.path)
    else "@RSYNCD: OK\n" + details + "Ready for transfer\n"
  }

  /** Both phrases begin "Re" and have a blank at offset 5. In a refusal the error line holds no
      'e', the fixed text after it no 'R', and the name that ends it no blank. */
  lemma NotReady(head: string, fixed: string, word: string, phrase: string)
    requires NoSpace(word) && 'e' !in head && 'R' !in fixed && head != "" && head[|head|-1] == '\n'
    requires |phrase| > 5 && phrase[0] == 'R' && phrase[1] == 'e' && phrase[5] == ' '
    ensures !Contains(head + (fixed + word) + "\n", phrase)
  {
    var s := head + (fixed + word) + "\n";
    var end := |head| + |fixed|;
    assert forall k :: 0 <= k < |head| ==> s[k] == head[k] && s[k] in head;
    assert forall k :: |head| <= k < end ==> s[k] == fixed[k - |head|] && s[k] in fixed;
    assert forall k :: end <= k < |s| ==> s[k] == '\n' || s[k] == word[k - end];
    forall i | 0 <= i <= |s|
      ensures !MatchesAt(s, phrase, i)
    {
      MatchChar(s, phrase, i, 0);
      MatchChar(s, phrase, i, 1);
      MatchChar(s, phrase, i, 5);
    }
  }

  lemma DigitsPlain(n: nat)
    ensures 'e' !in Digits(n)
  {
  }

  lemma ErrorHeadPlain(code: nat)
    ensures 'e' !in ErrorHead(code) && ErrorHead(code)[|ErrorHead(code)|-1] == '\n'
  {
    DigitsPlain(code);
    assert 'e' !in "@RSYNCD: ERROR ";
    assert ErrorHead(code) == "@RSYNCD: ERROR " + Digits(code) + "\n";
  }

  /** The reply to an upload request says "Ready to receive file" exactly when the module it
      names is known and writable. */
  lemma PutReplyDecides(modules: Modules, current: string, m: Message)
    requires NoSpace(m.moduleName) && NoSpace(current)
    ensures var name := Effective(m.moduleName, current);
            Contains(HandlePut(modules, current, m), READY_TO_RECEIVE)
            <==> name in modules && !modules[name].readOnly
  {
    var name := Effective(m.moduleName, current);
    if name !in modules {
      ErrorHeadPlain(1);
      NotReady(ErrorHead(1), "Module not found: ", name, READY_TO_RECEIVE);
    } else if modules[name].readOnly {
      ErrorHeadPlain(5);
      NotReady(ErrorHead(5), "Module is read-only: ", name, READY_TO_RECEIVE);
    } else {
      AcceptanceReady(m.path);
    }
  }

  lemma AcceptanceReady(path: string)
    ensures Contains("@RSYNCD: OK\n" + "Ready to receive file: " + path + "\n" + "Send file data\n", READY_TO_RECEIVE)
  {
    var ok, text := "@RSYNCD: OK\n", "Ready to receive file: ";
    var reply := ok + text + path + "\n" + "Send file data\n";
    assert text[..|READY_TO_RECEIVE|] == READY_TO_RECEIVE;
    assert reply[|ok|..|ok| + |READY_TO_RECEIVE|] == READY_TO_RECEIVE;
    assert MatchesAt(reply, READY_TO_RECEIVE, |ok|);
  }
}
