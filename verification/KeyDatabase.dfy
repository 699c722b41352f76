/** The public-key database: keys by user, printed one to a line and read back. */
module KeyDatabase {
  import opened Text

  datatype Key = Key(keyType: string, data: string, comment: string)

  datatype Entry = Entry(user: string, key: Key)

  /** The keys of each user, in the order they were added. */
  type Keys = map<string, seq<Key>>

  const KEY_TYPES: seq<string> := [
    "ssh-rsa", "ssh-dss", "ecdsa-sha2-nistp256", "ecdsa-sha2-nistp384", "ecdsa-sha2-nistp521", "ssh-ed25519"]

  predicate Supported(keyType: string) {
    keyType == "ssh-rsa" || keyType == "ssh-dss" || Find(keyType, "ecdsa-sha2-", 0) == 0 || keyType == "ssh-ed25519"
  }

  // ---------- reading ----------

  function RestOfLine(s: string): string {
    if s == "" then "" else GetLine(s).0
  }

  function ParseKey(s: string): Option<Key> {
    var keyType := ExtractWord(s).0;
    var data := ExtractWord(ExtractWord(s).1).0;
    var rest := RestOfLine(ExtractWord(ExtractWord(s).1).1);
    if data == "" || !Supported(keyType) then None
    else Some(Key(keyType, data, if rest == "" then "" else rest[1..]))
  }

  predicate IsBlank(c: char) {
    c == ' ' || c == '\t'
  }

  function TrimLeft(s: string): (r: string)
    ensures |r| <= |s| && r == s[|s| - |r|..]
    ensures r != "" ==> !IsBlank(r[0])
    ensures s != "" && !IsBlank(s[0]) ==> r == s
  {
    if s != "" && IsBlank(s[0]) then TrimLeft(s[1..]) else s
  }

  function TrimRight(s: string): (r: string)
    ensures |r| <= |s| && r == s[..|r|]
    ensures r != "" ==> !IsBlank(r[|r| - 1])
    ensures s != "" && !IsBlank(s[|s| - 1]) ==> r == s
  {
    if s != "" && IsBlank(s[|s| - 1]) then TrimRight(s[..|s| - 1]) else s
  }

  /** From the first place of the first listed name that occurs at all. */
  function KeyLine(types: seq<string>, line: string): string {
    if types == [] then line
    else if Find(line, types[0], 0) != -1 then line[Find(line, types[0], 0)..]
    else KeyLine(types[1..], line)
  }

  function UserOf(comment: string): string {
    var at := IndexOf(comment, '@', 0);
    if at == -1 then comment else comment[..at]
  }

  /** A user's name before the key counts if its colon comes before any "ssh-". */
  predicate HasUser(line: string) {
    var colon := IndexOf(line, ':', 0);
    var ssh := Find(line, "ssh-", 0);
    colon != -1 && (ssh == -1 || colon < ssh)
  }

  function NamedUser(line: string): string {
    if HasUser(line) then line[..IndexOf(line, ':', 0)] else ""
  }

  function AfterUser(line: string): string {
    if HasUser(line) then TrimLeft(line[IndexOf(line, ':', 0) + 1..]) else line
  }

  function NamedKey(line: string): string {
    KeyLine(KEY_TYPES, AfterUser(line))
  }

  function TrimmedEntry(line: string): Option<Entry> {
    var key := ParseKey(NamedKey(line));
    if key.None? then None
    else
      var user := if NamedUser(line) == "" then UserOf(key.value.comment) else NamedUser(line);
      if user == "" then None else Some(Entry(user, key.value))
  }

  function LineEntry(line: string): Option<Entry> {
    if line == "" || line[0] == '#' then None
    else if TrimRight(TrimLeft(line)) == "" then None
    else TrimmedEntry(TrimRight(TrimLeft(line)))
  }

  function KeysOf(keys: Keys, user: string): seq<Key> {
    if user in keys then keys[user] else []
  }

  function Added(keys: Keys, e: Entry): Keys {
    keys[e.user := KeysOf(keys, e.user) + [e.key]]
  }

  function WithLine(keys: Keys, line: string): Keys {
    if LineEntry(line).Some? then Added(keys, LineEntry(line).value) else keys
  }

  function Loaded(text: string, keys: Keys): Keys
    decreases |text|
  {
    if text == "" then keys else Loaded(GetLine(text).1, WithLine(keys, GetLine(text).0))
  }

  // ---------- writing ----------

  function PrintedKey(k: Key): string {
    k.keyType + (" " + k.data + if k.comment == "" then "" else " " + k.comment)
  }

  function PrintedEntry(e: Entry): string {
    e.user + (": " + PrintedKey(e.key))
  }

  function PrintedEntries(entries: seq<Entry>): string {
    if entries == [] then "" else PrintedEntry(entries[0]) + "\n" + PrintedEntries(entries[1..])
  }

  function EntriesOf(user: string, keys: seq<Key>): seq<Entry> {
    if keys == [] then [] else [Entry(user, keys[0])] + EntriesOf(user, keys[1..])
  }

  function AllEntries(keys: Keys, users: seq<string>): seq<Entry>
    requires forall u :: u in users ==> u in keys
    decreases |users|
  {
    if users == [] then [] else EntriesOf(users[0], keys[users[0]]) + AllEntries(keys, users[1..])
  }

  const HEADER1: string := "# Public key database"
  const HEADER2: string := "# Format: username:" + (" key-type key-data" + " [comment]")

  function Saved(keys: Keys, users: seq<string>): string
    requires forall u :: u in users ==> u in keys
  {
    HEADER1 + "\n" + (HEADER2 + "\n" + PrintedEntries(AllEntries(keys, users)))
  }

  /** The order in which the map is walked: each user once. */
  predicate Enumerates(users: seq<string>, keys: Keys) {
    && (set u | u in users) == keys.Keys
    && (forall i, j :: 0 <= i < j < |users| ==> users[i] != users[j])
  }

  /** Every database can be walked. */
  lemma {:induction false} HasOrder(keys: Keys) returns (users: seq<string>)
    ensures Enumerates(users, keys)
    decreases |keys.Keys|
  {
    if keys == map[] {
      users := [];
    } else {
      var u :| u in keys;
      var rest := keys - {u};
      assert rest.Keys == keys.Keys - {u};
      var others := HasOrder(rest);
      assert forall v :: v in others ==> v in set w | w in others;
      users := others + [u];
      assert (set v | v in users) == (set v | v in others) + {u};
    }
  }

  function SavedInOrder(keys: Keys, users: seq<string>): string
    requires Enumerates(users, keys)
  {
    assert forall u :: u in users ==> u in set v | v in users;
    Saved(keys, users)
  }

  // ---------- one key ----------

  /** What every parsed key satisfies. */
  predicate KeyOk(k: Key) {
    IsWord(k.keyType) && IsWord(k.data) && NoNewline(k.comment) && Supported(k.keyType)
  }

  lemma ParsedKeyOk(s: string)
    ensures ParseKey(s).Some? ==> KeyOk(ParseKey(s).value)
  {
    var rest := RestOfLine(ExtractWord(ExtractWord(s).1).1);
    LineHasNoNewline(ExtractWord(ExtractWord(s).1).1);
  }

  lemma LineHasNoNewline(s: string)
    ensures NoNewline(RestOfLine(s))
  {
    if s != "" {
      var n := Find(s, "\n", 0);
      var line := GetLine(s).0;
      forall i | 0 <= i < |line| ensures line[i] != '\n' {
        OneChar(s, '\n', i);
      }
    }
  }

  lemma ParsePrintedKey(k: Key)
    requires KeyOk(k)
    ensures ParseKey(PrintedKey(k)) == Some(k)
  {
    var tail := if k.comment == "" then "" else " " + k.comment;
    ExtractThen(k.keyType, " " + k.data + tail);
    ExtractThen(k.data, tail);
    hide ExtractWord, Supported;
    GetLineOf(tail, "");
  }

  // ---------- one line ----------

  predicate UserOk(user: string) {
    user != "" && user[0] != '#' && !IsBlank(user[0]) && ':' !in user && Find(user, "ssh-", 0) == -1
  }

  predicate CommentOk(comment: string) {
    comment == "" || !IsBlank(comment[|comment| - 1])
  }

  /** The first listed key type that occurs at all occurs first at `at`; when none occurs, `at` is 0. */
  predicate TypeAt(types: seq<string>, line: string, at: nat) {
    if types == [] then at == 0
    else if Find(line, types[0], 0) != -1 then Find(line, types[0], 0) == at
    else TypeAt(types[1..], line, at)
  }

  lemma {:induction false} KeyLineIs(types: seq<string>, line: string, at: nat)
    requires at <= |line|
    ensures |KeyLine(types, line)| <= |line|
    ensures TypeAt(types, line, at) <==> |KeyLine(types, line)| == |line| - at
    ensures TypeAt(types, line, at) ==> KeyLine(types, line) == line[at..]
  {
    if types != [] && Find(line, types[0], 0) == -1 {
      KeyLineIs(types[1..], line, at);
    }
  }

  /** What a printed entry looks like. */
  lemma EntryShape(e: Entry)
    requires KeyOk(e.key) && e.user != ""
    ensures var line := PrintedEntry(e);
            && |line| == |e.user| + 2 + |PrintedKey(e.key)|
            && line[0] == e.user[0] && line[|e.user|] == ':' && line[|e.user| + 1] == ' '
            && line[..|e.user|] == e.user && line[|e.user| + 2..] == PrintedKey(e.key)
            && (IsBlank(line[|line| - 1]) <==> !CommentOk(e.key.comment))
            && PrintedKey(e.key) != "" && !IsBlank(PrintedKey(e.key)[0])
  {
    var k := e.key;
    var line := PrintedEntry(e);
    KeyShape(k);
    assert line[|line| - 1] == PrintedKey(k)[|PrintedKey(k)| - 1];
  }

  lemma KeyShape(k: Key)
    requires KeyOk(k)
    ensures var s := PrintedKey(k);
            && |s| == |k.keyType| + 1 + |k.data| + (if k.comment == "" then 0 else 1 + |k.comment|)
            && !IsBlank(s[0]) && (IsBlank(s[|s| - 1]) <==> !CommentOk(k.comment))
  {
    var s := PrintedKey(k);
    assert s[0] == k.keyType[0];
    if k.comment == "" {
      assert s[|s| - 1] == k.data[|k.data| - 1];
    } else {
      assert s[|s| - 1] == k.comment[|k.comment| - 1];
    }
  }

  /** No "ssh-" begins at or before the colon, when there is none in the name. */
  lemma NoSshBefore(line: string, n: nat)
    requires n < |line| && line[n] == ':'
    ensures Find(line[..n], "ssh-", 0) == -1 <==> Find(line, "ssh-", 0) == -1 || n < Find(line, "ssh-", 0)
  {
    SshBefore(line, n, "ssh-");
  }

  lemma SshBefore(line: string, n: nat, ssh: string)
    requires n < |line| && line[n] == ':' && ':' !in ssh && |ssh| > 0
    ensures Find(line[..n], ssh, 0) == -1 <==> Find(line, ssh, 0) == -1 || n < Find(line, ssh, 0)
  {
    var r := Find(line, ssh, 0);
    var q := Find(line[..n], ssh, 0);
    hide Find;
    if r != -1 && r <= n {
      MatchChar(line, ssh, r, n - r);
      assert MatchesAt(line[..n], ssh, r);
    }
    if q != -1 {
      assert MatchesAt(line, ssh, q);
    }
  }

  /** A line printed for a proper name is cut at its colon, and the key line follows it. */
  lemma EntryCut(e: Entry)
    requires KeyOk(e.key) && UserOk(e.user) && CommentOk(e.key.comment)
    ensures LineEntry(PrintedEntry(e)) == TrimmedEntry(PrintedEntry(e))
    ensures NamedUser(PrintedEntry(e)) == e.user && NamedKey(PrintedEntry(e)) == KeyLine(KEY_TYPES, PrintedKey(e.key))
  {
    var line := PrintedEntry(e);
    EntryShape(e);
    hide *;
    LineCut(line, e.user, PrintedKey(e.key));
  }

  lemma NotTrimmed(line: string)
    requires line != "" && line[0] != '#' && !IsBlank(line[0]) && !IsBlank(line[|line| - 1])
    ensures LineEntry(line) == TrimmedEntry(line)
  {
    hide TrimmedEntry;
  }

  lemma LineCut(line: string, user: string, key: string)
    requires UserOk(user) && |line| >= |user| + 2 && line[..|user|] == user && line[|user|] == ':'
             && line[|user| + 1] == ' '
    requires line[|user| + 2..] == key && key != "" && !IsBlank(key[0]) && line[0] == user[0]
             && !IsBlank(line[|line| - 1])
    ensures LineEntry(line) == TrimmedEntry(line) && HasUser(line) && NamedUser(line) == user
            && NamedKey(line) == KeyLine(KEY_TYPES, key)
  {
    hide KeyLine, Find, IndexOf, TrimLeft, LineEntry, TrimmedEntry;
    NotTrimmed(line);
    FirstIndex(line, ':', 0, |user|);
    NoSshBefore(line, |user|);
    BlankThen(line[|user| + 1..], key);
  }

  lemma BlankThen(s: string, t: string)
    requires s != "" && IsBlank(s[0]) && s[1..] == t && t != "" && !IsBlank(t[0])
    ensures TrimLeft(s) == t
  {
  }

  /** The name stands before the key and is read from there. */
  predicate ReadsDirectly(e: Entry) {
    UserOk(e.user) && CommentOk(e.key.comment) && TypeAt(KEY_TYPES, PrintedKey(e.key), 0)
  }

  function BeforeColon(name: string): string {
    var colon := IndexOf(name, ':', 0);
    if colon == -1 then name else name[..colon]
  }

  /** A name that is not read from before the key: blank, or with a colon first, or with "ssh-"
      before its first colon. */
  predicate Nameless(user: string) {
    BeforeColon(TrimLeft(user)) == "" || Find(BeforeColon(TrimLeft(user)), "ssh-", 0) != -1
  }

  /** What is searched for a key type before the key itself, when the name is not read from there. */
  function Searched(user: string): string {
    Before(TrimLeft(user))
  }

  function Before(name: string): string {
    if name == "" then ""
    else if name[0] == ':' then TrimLeft(name[1..]) + ": "
    else name + ": "
  }

  /** The name is read from the comment instead, and no key type makes the key line begin elsewhere: the
      first listed one that occurs after the name's first colon, or in all of the line, begins the key. */
  predicate ReadsByComment(e: Entry) {
    && e.user != "" && e.user[0] != '#' && Nameless(e.user)
    && UserOf(e.key.comment) == e.user && CommentOk(e.key.comment)
    && TypeAt(KEY_TYPES, Searched(e.user) + PrintedKey(e.key), |Searched(e.user)|)
  }

  predicate EntryOk(e: Entry) {
    KeyOk(e.key) && NoNewline(e.user) && (ReadsDirectly(e) || ReadsByComment(e))
  }

  lemma DirectReadsBack(e: Entry)
    requires KeyOk(e.key) && ReadsDirectly(e)
    ensures LineEntry(PrintedEntry(e)) == Some(e)
  {
    EntryCut(e);
    KeyLineIs(KEY_TYPES, PrintedKey(e.key), 0);
    hide KeyLine, PrintedEntry, NamedKey, NamedUser, LineEntry, TypeAt;
    ParsePrintedKey(e.key);
  }

  lemma {:induction false} TrimLeftPlus(s: string, rest: string)
    requires rest != "" && !IsBlank(rest[0])
    ensures TrimLeft(s + rest) == TrimLeft(s) + rest
  {
    if s == "" {
      assert s + rest == rest;
    } else if IsBlank(s[0]) {
      assert (s + rest)[1..] == s[1..] + rest;
      TrimLeftPlus(s[1..], rest);
    }
  }

  /** The name that a trimmed line shows, from the name it was printed for. */
  lemma ShownName(name: string, rest: string)
    requires rest != "" && rest[0] == ':'
    ensures var p := BeforeColon(name);
            NamedUser(name + rest) == if Find(p, "ssh-", 0) == -1 then p else ""
  {
    hide Find, IndexOf;
    var t := name + rest;
    var c := IndexOf(name, ':', 0);
    BeforeIndex(name, ':', 0);
    var n := if c == -1 then |name| else c;
    forall k | 0 <= k < n ensures t[k] != ':' {
      assert t[k] == name[k];
    }
    FirstIndex(t, ':', 0, n);
    assert t[..n] == BeforeColon(name);
    NoSshBefore(t, n);
  }

  /** A printed line begins with the trimmed name when it is trimmed; its end stays if the comment
      allows it. */
  lemma TrimmedShape(e: Entry)
    requires KeyOk(e.key) && e.user != ""
    ensures var t := TrimLeft(PrintedEntry(e));
            && t == TrimLeft(e.user) + (": " + PrintedKey(e.key)) && t != ""
            && (CommentOk(e.key.comment) ==> TrimRight(t) == t)
            && (NamedUser(t) == "" <==> Nameless(e.user))
  {
    hide Find, IndexOf, NamedUser;
    var rest := ": " + PrintedKey(e.key);
    TrimLeftPlus(e.user, rest);
    ShownName(TrimLeft(e.user), rest);
    EntryShape(e);
    var t := TrimLeft(PrintedEntry(e));
    assert t[|t| - 1] == PrintedEntry(e)[|PrintedEntry(e)| - 1];
  }

  lemma BlankShow(rest: string)
    requires rest != "" && !IsBlank(rest[0])
    ensures TrimLeft(" " + rest) == rest
  {
    assert (" " + rest)[1..] == rest;
  }

  lemma ColonFirst(t: string)
    requires t != "" && t[0] == ':'
    ensures AfterUser(t) == TrimLeft(t[1..])
  {
    hide Find, TrimLeft;
    var ssh := "ssh-";
    MatchChar(t, ssh, 0, 0);
    assert ssh[0] == 's';
  }

  lemma ColonLater(t: string)
    requires t != "" && t[0] != ':' && NamedUser(t) == ""
    ensures AfterUser(t) == t
  {
    hide Find, TrimLeft;
  }

  /** What is left of a trimmed line when its first colon does not end a name. */
  lemma AfterNoName(name: string, key: string)
    requires key != "" && !IsBlank(key[0]) && NamedUser(name + (": " + key)) == ""
    ensures AfterUser(name + (": " + key))
            == Before(name) + key
  {
    hide Find, TrimLeft, NamedUser, AfterUser;
    var t := name + (": " + key);
    if name == "" {
      ColonFirst(t);
      BlankShow(key);
      assert t[1..] == " " + key;
    } else if name[0] == ':' {
      ColonFirst(t);
      assert t[1..] == name[1..] + (": " + key);
      TrimLeftPlus(name[1..], ": " + key);
      Regroup(TrimLeft(name[1..]), ": ", key);
    } else {
      ColonLater(t);
      Regroup(name, ": ", key);
    }
  }

  /** Where the key line of a nameless entry begins. */
  lemma NamelessKeyLine(e: Entry)
    requires KeyOk(e.key) && e.user != "" && Nameless(e.user)
    ensures var before := Searched(e.user);
            && NamedKey(TrimLeft(PrintedEntry(e))) == KeyLine(KEY_TYPES, before + PrintedKey(e.key))
            && (TypeAt(KEY_TYPES, before + PrintedKey(e.key), |before|)
                <==> NamedKey(TrimLeft(PrintedEntry(e))) == PrintedKey(e.key))
  {
    hide Find, IndexOf, NamedUser, Nameless, TypeAt, KeyLine, TrimLeft, PrintedKey, KeyOk, AfterUser;
    TrimmedShape(e);
    KeyShape(e.key);
    AfterNoName(TrimLeft(e.user), PrintedKey(e.key));
    var before, key := Searched(e.user), PrintedKey(e.key);
    KeyLineIs(KEY_TYPES, before + key, |before|);
    assert (before + key)[|before|..] == key;
    assert NamedKey(TrimLeft(PrintedEntry(e))) == KeyLine(KEY_TYPES, AfterUser(TrimLeft(PrintedEntry(e))));
  }

  lemma CommentReadsBack(e: Entry)
    requires KeyOk(e.key) && ReadsByComment(e)
    ensures LineEntry(PrintedEntry(e)) == Some(e)
  {
    hide TypeAt, Searched, KeyLine, PrintedEntry, PrintedKey, NamedKey, NamedUser, Nameless, UserOf, ParseKey, TrimLeft,
      TrimRight, CommentOk, KeyOk, IsBlank, LineEntry;
    NamelessKeyLine(e);
    TrimmedShape(e);
    EntryShape(e);
    ParsePrintedKey(e.key);
    TrimmedReads(PrintedEntry(e), e);
  }

  lemma TrimmedReads(line: string, e: Entry)
    requires line != "" && line[0] != '#' && e.user != ""
    requires var t := TrimRight(TrimLeft(line));
             && t != "" && ParseKey(NamedKey(t)) == Some(e.key) && NamedUser(t) == "" && UserOf(e.key.comment) == e.user
    ensures LineEntry(line) == Some(e)
  {
    hide NamedKey, NamedUser, UserOf, ParseKey;
  }

  /** Under these conditions a printed line is read back as it was. */
  lemma LineReadsBack(e: Entry)
    requires EntryOk(e)
    ensures LineEntry(PrintedEntry(e)) == Some(e)
  {
    hide LineEntry, PrintedEntry, ReadsDirectly, ReadsByComment, KeyOk;
    if ReadsDirectly(e) {
      DirectReadsBack(e);
    } else {
      CommentReadsBack(e);
    }
  }

  lemma ExtractSizes(s: string)
    ensures var r := ExtractWord(s);
            && |r.0| + |r.1| <= |s| && (r.1 != "" ==> IsSpace(r.1[0]))
            && (s != "" && IsSpace(s[0]) ==> |r.0| + |r.1| < |s|)
  {
    SkipShrinks(s);
  }

  lemma {:induction false} SkipShrinks(s: string)
    ensures s != "" && IsSpace(s[0]) ==> |SkipSpace(s)| < |s|
  {
  }

  /** A key is never longer, printed, than what it was read from. */
  lemma ParseLength(s: string)
    requires ParseKey(s).Some?
    ensures |PrintedKey(ParseKey(s).value)| <= |s|
  {
    ExtractSizes(s);
    ExtractSizes(ExtractWord(s).1);
    hide ExtractWord, Supported;
    var rest := ExtractWord(ExtractWord(s).1).1;
    assert |RestOfLine(rest)| <= |rest|;
  }

  /** A line that is read back shows its name, or its comment does. */
  lemma EntryFrom(line: string, e: Entry)
    requires LineEntry(line) == Some(e)
    ensures var t := TrimRight(TrimLeft(line));
            && line != "" && line[0] != '#' && t != "" && ParseKey(NamedKey(t)) == Some(e.key) && e.user != ""
            && e.user == if NamedUser(t) == "" then UserOf(e.key.comment) else NamedUser(t)
  {
    hide UserOf, ParseKey, NamedKey, NamedUser;
  }

  lemma DirectOnly(e: Entry)
    requires KeyOk(e.key) && LineEntry(PrintedEntry(e)) == Some(e)
    requires NamedUser(TrimRight(TrimLeft(PrintedEntry(e)))) != ""
    ensures ReadsDirectly(e)
  {
    hide UserOf, PrintedEntry, PrintedKey, KeyOk, KeyLine, TypeAt, ParseKey, HasUser, NamedKey, NamedUser, UserOk,
      CommentOk, TrimLeft, TrimRight, IndexOf, LineEntry;
    var line := PrintedEntry(e);
    var t := TrimRight(TrimLeft(line));
    EntryFrom(line, e);
    EntryShape(e);
    NameRead(line, e.user, t);
    ParseLength(NamedKey(t));
    KeyRead(line, e.user, t);
    EntryCut(e);
    KeyLineIs(KEY_TYPES, PrintedKey(e.key), 0);
  }

  lemma {:induction false} SkipIs(s: string)
    ensures var r := SkipSpace(s);
            r == s[|s| - |r|..] && forall i :: 0 <= i < |s| - |r| ==> IsSpace(s[i])
  {
    if s != "" && IsSpace(s[0]) {
      SkipIs(s[1..]);
      var r := SkipSpace(s);
      assert s[1..][|s| - 1 - |r|..] == s[|s| - |r|..];
      forall i | 0 <= i < |s| - |r| ensures IsSpace(s[i]) {
        assert i > 0 ==> s[i] == s[1..][i - 1];
      }
    } else {
      assert s[0..] == s;
    }
  }

  /** Where a word that is taken from the front of a text stands, and what follows it. */
  lemma WordStands(s: string)
    requires ExtractWord(s).0 != ""
    ensures var (w, rest) := ExtractWord(s);
            var at := |s| - |rest| - |w|;
            && 0 <= at && rest == s[at + |w|..] && s[at..at + |w|] == w
            && (forall i :: 0 <= i < at ==> IsSpace(s[i]))
            && (rest != "" ==> IsSpace(rest[0]))
  {
    SkipIs(s);
    var t := SkipSpace(s);
    var w := Word(t);
    hide Word, SkipSpace;
    assert t[|w|..] == s[|s| - |t| + |w|..];
    assert t[..|w|] == s[|s| - |t|..|s| - |t| + |w|];
  }

  lemma ParsedWords(s: string, k: Key)
    requires KeyOk(k) && ParseKey(s) == Some(k)
    ensures ExtractWord(s).0 == k.keyType && ExtractWord(ExtractWord(s).1).0 == k.data && k.keyType != ""
            && k.data != ""
  {
    hide ExtractWord, Supported, RestOfLine;
  }

  /** A text that parses to a key and ends in the key's printed form has only blanks before it. */
  lemma ParseTight(q: string, k: Key)
    requires KeyOk(k) && NoNewline(q + PrintedKey(k)) && ParseKey(q + PrintedKey(k)) == Some(k)
    ensures forall i :: 0 <= i < |q| ==> IsSpace(q[i])
  {
    hide ExtractWord, ParseKey, PrintedKey, RestOfLine, NoNewline;
    var s := q + PrintedKey(k);
    var r1 := ExtractWord(s).1;
    var r2 := ExtractWord(r1).1;
    ParsedWords(s, k);
    PrintedAt(q, k);
    TypeEnds(s, |q|, k);
    WordStands(s);
    SameStart(q, PrintedKey(k), |s| - |r1| - |k.keyType|);
  }

  lemma SameStart(q: string, key: string, at: nat)
    requires at == |q| && forall i :: 0 <= i < at ==> IsSpace((q + key)[i])
    ensures forall i :: 0 <= i < |q| ==> IsSpace(q[i])
  {
    assert forall i :: 0 <= i < |q| ==> (q + key)[i] == q[i];
  }

  /** The type that is read ends where the printed one does. */
  lemma TypeEnds(s: string, at: nat, k: Key)
    requires KeyOk(k) && NoNewline(s) && ParseKey(s) == Some(k)
    requires var end := at + |k.keyType| + 1 + |k.data|;
             && end <= |s| && s[at + |k.keyType| - 1] == k.keyType[|k.keyType| - 1]
               && s[end - 1] == k.data[|k.data| - 1]
             && |s| == end + if k.comment == "" then 0 else 1 + |k.comment|
    ensures |s| - |ExtractWord(s).1| == at + |k.keyType|
  {
    hide ExtractWord, ParseKey, RestOfLine, NoNewline, Supported;
    var r1 := ExtractWord(s).1;
    var r2 := ExtractWord(r1).1;
    ParsedWords(s, k);
    WordStands(s);
    WordStands(r1);
    RestSuffix(s, r1, r2);
    RestIs(s, r1, r2, k);
    SamePlace(s, at + |k.keyType|, r1, r2, k.data);
  }

  lemma RestSuffix(s: string, r1: string, r2: string)
    requires |r1| <= |s| && r1 == s[|s| - |r1|..] && |r2| <= |r1| && r2 == r1[|r1| - |r2|..]
    ensures r2 == s[|s| - |r2|..]
    ensures NoNewline(s) ==> NoNewline(r2)
  {
  }

  /** The first word ends at `n`: a blank run that begins with a blank, ends before the second word,
      and cannot reach back over the character before `n`. */
  lemma SamePlace(s: string, n: nat, r1: string, r2: string, data: string)
    requires 0 < n < |s| && !IsSpace(s[n - 1]) && |s| == n + 1 + |data| + |r2| && data != "" && !IsSpace(data[0])
    requires |r1| <= |s| && r1 == s[|s| - |r1|..] && r1 != "" && IsSpace(r1[0])
    requires var at := |r1| - |r2| - |data|;
             0 <= at && r1[at..at + |data|] == data && forall i :: 0 <= i < at ==> IsSpace(r1[i])
    ensures |s| - |r1| == n
  {
    var at := |r1| - |r2| - |data|;
    assert r1[at] == r1[at..at + |data|][0];
    assert forall i :: |s| - |r1| <= i < |s| ==> s[i] == r1[i - (|s| - |r1|)];
  }

  lemma PrintedAt(q: string, k: Key)
    requires KeyOk(k)
    ensures var s := q + PrintedKey(k);
            var end := |q| + |k.keyType| + 1 + |k.data|;
            && end <= |s| && s[|q| + |k.keyType| - 1] == k.keyType[|k.keyType| - 1]
            && s[..|q|] == q && s[end - 1] == k.data[|k.data| - 1]
            && |s| == end + if k.comment == "" then 0 else 1 + |k.comment|
  {
    KeyShape(k);
  }

  /** What follows the two words is the comment and the character before it. */
  lemma RestIs(s: string, r1: string, r2: string, k: Key)
    requires s != "" && (!IsSpace(s[|s| - 1]) || k.comment != "")
    requires ParseKey(s) == Some(k)
    requires r1 == ExtractWord(s).1 && r2 == ExtractWord(r1).1 && NoNewline(r2)
    requires |r2| <= |s| && r2 == s[|s| - |r2|..] && (r2 != "" ==> IsSpace(r2[0]))
    ensures |r2| == if k.comment == "" then 0 else 1 + |k.comment|
  {
    WholeLine(r2);
    hide ExtractWord, RestOfLine, Supported;
    assert r2 != "" ==> r2[|r2| - 1] == s[|s| - 1];
  }

  lemma WholeLine(s: string)
    requires NoNewline(s)
    ensures RestOfLine(s) == s
  {
    GetLineOf(s, "");
  }

  lemma {:induction false} KeyLineSuffix(types: seq<string>, line: string)
    requires forall i :: 0 <= i < |types| ==> types[i] != "" && !IsBlank(types[i][0])
    ensures var r := KeyLine(types, line);
            && |r| <= |line| && r == line[|line| - |r|..]
            && (r != "" && !IsBlank(line[0]) ==> !IsBlank(r[0]))
  {
    if types != [] {
      var at := Find(line, types[0], 0);
      hide Find;
      MatchChar(line, types[0], at, 0);
      if at == -1 {
        KeyLineSuffix(types[1..], line);
      }
    }
  }

  lemma AfterUserSuffix(t: string)
    requires t != "" && !IsBlank(t[0])
    ensures var r := AfterUser(t);
            |r| <= |t| && r == t[|t| - |r|..] && (r != "" ==> !IsBlank(r[0]))
  {
    hide Find, IndexOf, IsBlank, TrimLeft;
  }

  lemma KeyTypesBegin()
    ensures forall i :: 0 <= i < |KEY_TYPES| ==> KEY_TYPES[i] != "" && !IsBlank(KEY_TYPES[i][0])
  {
  }

  /** The key line ends the line and does not begin with a blank. */
  lemma NamedKeySuffix(t: string)
    requires t != "" && !IsBlank(t[0])
    ensures var s := NamedKey(t);
            |s| <= |t| && s == t[|t| - |s|..] && (s != "" ==> !IsBlank(s[0]))
  {
    assert NamedKey(t) == KeyLine(KEY_TYPES, AfterUser(t));
    AfterUserSuffix(t);
    KeyTypesBegin();
    hide NamedKey, AfterUser, KeyLine, IsBlank;
    var r := AfterUser(t);
    KeyLineSuffix(KEY_TYPES, r);
    SuffixTwice(t, r, NamedKey(t));
  }

  lemma SuffixTwice(t: string, r: string, s: string)
    requires |r| <= |t| && r == t[|t| - |r|..] && |s| <= |r| && s == r[|r| - |s|..]
    ensures s == t[|t| - |s|..]
  {
  }

  /** What is read as a comment does not end in a blank when the text does not. */
  lemma ParsedCommentEnd(s: string)
    requires NoNewline(s) && s != "" && !IsBlank(s[|s| - 1]) && ParseKey(s).Some?
    ensures CommentOk(ParseKey(s).value.comment)
  {
    var r1 := ExtractWord(s).1;
    var r2 := ExtractWord(r1).1;
    BothWords(s);
    hide ExtractWord, NoNewline, IsBlank, CommentOk, RestOfLine;
    WordStands(s);
    WordStands(r1);
    RestSuffix(s, r1, r2);
    WholeLine(r2);
    LastOfSuffix(s, r2);
  }

  lemma BothWords(s: string)
    requires ParseKey(s).Some?
    ensures ExtractWord(s).0 != "" && ExtractWord(ExtractWord(s).1).0 != ""
  {
    hide ExtractWord, RestOfLine;
    assert Supported("") == false by {
      var prefix := "ecdsa-sha2-";
      MatchChar("", prefix, 0, 0);
    }
  }

  lemma LastOfSuffix(s: string, r: string)
    requires s != "" && !IsBlank(s[|s| - 1]) && |r| <= |s| && r == s[|s| - |r|..]
    ensures CommentOk(if r == "" then "" else r[1..])
  {
    if |r| > 1 {
      assert r[1..][|r| - 2] == s[|s| - 1];
    }
  }

  lemma CommentOnly(e: Entry)
    requires KeyOk(e.key) && NoNewline(e.user) && LineEntry(PrintedEntry(e)) == Some(e)
    requires NamedUser(TrimRight(TrimLeft(PrintedEntry(e)))) == ""
    ensures ReadsByComment(e)
  {
    hide PrintedKey, KeyOk, ParseKey, NamedKey, NamedUser, Nameless, LineEntry, TrimLeft, TrimRight, UserOf,
      CommentOk, PrintedEntry, NoNewline, IsBlank, Trimmed, TypeAt, Searched, KeyLine;
    var line := PrintedEntry(e);
    EntryFrom(line, e);
    EntryShape(e);
    TrimmedShape(e);
    EntryHasNoNewline(e);
    TrimmedStretch(line);
    CommentEnds(TrimRight(TrimLeft(line)), e.key);
    KeyEnds(TrimLeft(line), TrimLeft(e.user), e.key);
    NamelessKeyLine(e);
  }

  predicate Trimmed(t: string) {
    t != "" && !IsBlank(t[0]) && !IsBlank(t[|t| - 1]) && NoNewline(t)
  }

  /** The key line of a trimmed line, as a stretch of it. */
  lemma KeyStretch(t: string)
    requires Trimmed(t) && ParseKey(NamedKey(t)).Some?
    ensures var s := NamedKey(t);
            Trimmed(s) && |s| <= |t| && s == t[|t| - |s|..]
  {
    hide NamedKey, ParseKey, NoNewline, IsBlank;
    NamedKeySuffix(t);
    ParsedSome(NamedKey(t));
    SuffixOf(t, NamedKey(t));
  }

  lemma CommentEnds(t: string, k: Key)
    requires Trimmed(t) && ParseKey(NamedKey(t)) == Some(k)
    ensures CommentOk(k.comment)
  {
    hide NamedKey, ParseKey, CommentOk;
    KeyStretch(t);
    ParsedCommentEnd(NamedKey(t));
  }

  lemma KeyEnds(t: string, name: string, k: Key)
    requires KeyOk(k) && Trimmed(t) && ParseKey(NamedKey(t)) == Some(k) && t == name + (": " + PrintedKey(k))
    ensures NamedKey(t) == PrintedKey(k)
  {
    hide NamedKey, ParseKey, KeyOk, PrintedKey;
    KeyStretch(t);
    ParseLength(NamedKey(t));
    KeyLineIsKey(name, NamedKey(t), k);
  }

  lemma TrimmedStretch(line: string)
    ensures var t := TrimRight(TrimLeft(line));
            t != "" && NoNewline(line) ==> Trimmed(t)
  {
    hide TrimLeft, TrimRight, IsBlank, NoNewline;
    LeftStretch(line, TrimLeft(line));
    RightStretch(TrimLeft(line), TrimRight(TrimLeft(line)));
  }

  lemma LeftStretch(s: string, r: string)
    requires |r| <= |s| && r == s[|s| - |r|..]
    ensures NoNewline(s) ==> NoNewline(r)
  {
  }

  lemma RightStretch(s: string, r: string)
    requires |r| <= |s| && r == s[..|r|]
    ensures NoNewline(s) ==> NoNewline(r)
    ensures r != "" ==> r[0] == s[0]
  {
  }

  lemma SuffixOf(t: string, s: string)
    requires 0 < |s| <= |t| && s == t[|t| - |s|..]
    ensures s[|s| - 1] == t[|t| - 1] && (NoNewline(t) ==> NoNewline(s))
  {
  }

  lemma ParsedSome(s: string)
    ensures ParseKey(s).Some? ==> s != ""
  {
  }

  /** A stretch that ends the line, parses to the key and does not begin with a blank is the printed
      key. */
  lemma KeyLineIsKey(name: string, s: string, k: Key)
    requires KeyOk(k) && ParseKey(s) == Some(k) && |s| >= |PrintedKey(k)| && s != "" && !IsBlank(s[0]) && NoNewline(s)
    requires var t := name + (": " + PrintedKey(k)); |s| <= |t| && s == t[|t| - |s|..]
    ensures s == PrintedKey(k)
  {
    var key := PrintedKey(k);
    var t := name + (": " + key);
    var q := s[..|s| - |key|];
    assert s[|s| - |key|..] == key;
    assert s == q + key;
    assert t[|name|] == ':' && t[|name| + 1] == ' ';
    assert forall i :: 0 <= i < |q| ==> q[i] == s[i] == t[|t| - |s| + i];
    hide PrintedKey, ParseKey, KeyOk;
    ParseTight(q, k);
  }

  lemma NameRead(line: string, user: string, t: string)
    requires user != "" && |line| > |user| && line[..|user|] == user && line[0] == user[0] != '#'
    requires t == TrimRight(TrimLeft(line)) && t != "" && NamedUser(t) == user
    ensures UserOk(user) && TrimLeft(line) == line && HasUser(t) && IndexOf(t, ':', 0) == |user|
  {
    hide Find, IndexOf;
    assert t[0] == TrimLeft(line)[0];
    var c := IndexOf(t, ':', 0);
    BeforeIndex(t, ':', 0);
    NoSshBefore(t, c);
  }

  lemma KeyRead(line: string, user: string, t: string)
    requires |line| > |user| + 2 && t == TrimRight(line) && HasUser(t) && IndexOf(t, ':', 0) == |user|
             && line[|user| + 1] == ' '
    requires |NamedKey(t)| + |user| + 2 >= |line|
    ensures t == line && !IsBlank(line[|line| - 1])
  {
    hide Find, IndexOf, KeyLine, HasUser, TrimLeft, IsBlank;
    AfterUserShort(t, |user|);
    KeyLineIs(KEY_TYPES, AfterUser(t), 0);
    assert NamedKey(t) == KeyLine(KEY_TYPES, AfterUser(t));
    hide NamedKey, AfterUser;
    assert |t| > |user| + 1 ==> t[|user| + 1] == ' ';
    assert |t| == |line|;
    assert t == line;
  }

  lemma AfterUserShort(t: string, n: nat)
    requires HasUser(t) && IndexOf(t, ':', 0) == n
    ensures |AfterUser(t)| <= |t| - n - 1
    ensures |t| > n + 1 && t[n + 1] == ' ' ==> |AfterUser(t)| <= |t| - n - 2
  {
    hide Find, IndexOf, HasUser;
    if |t| > n + 1 && t[n + 1] == ' ' {
      TrimShrinks(t[n + 1..]);
    }
  }

  lemma TrimShrinks(s: string)
    requires s != "" && IsBlank(s[0])
    ensures |TrimLeft(s)| < |s|
  {
  }

  /** Exactly when a printed line is read back as it was. */
  lemma LineReadsBackIff(e: Entry)
    requires KeyOk(e.key) && NoNewline(e.user)
    ensures LineEntry(PrintedEntry(e)) == Some(e) <==> ReadsDirectly(e) || ReadsByComment(e)
  {
    hide LineEntry, PrintedEntry, ReadsDirectly, ReadsByComment, NamedUser;
    if ReadsDirectly(e) || ReadsByComment(e) {
      LineReadsBack(e);
    }
    if LineEntry(PrintedEntry(e)) == Some(e) {
      if NamedUser(TrimRight(TrimLeft(PrintedEntry(e)))) == "" {
        CommentOnly(e);
      } else {
        DirectOnly(e);
      }
    }
  }

  // ---------- the whole file ----------

  function AddAll(keys: Keys, entries: seq<Entry>): Keys
    decreases |entries|
  {
    if entries == [] then keys else AddAll(Added(keys, entries[0]), entries[1..])
  }

  lemma {:induction false} LoadPrinted(entries: seq<Entry>, keys: Keys)
    requires forall e :: e in entries ==> EntryOk(e)
    ensures Loaded(PrintedEntries(entries), keys) == AddAll(keys, entries)
    decreases |entries|
  {
    if entries != [] {
      var e := entries[0];
      LoadPrinted(entries[1..], Added(keys, e));
      hide Loaded, PrintedEntry, EntryOk, NoNewline, Added, WithLine, LineEntry;
      EntryAdded(keys, e);
      LoadLine(PrintedEntry(e), PrintedEntries(entries[1..]), keys);
    }
  }

  lemma EntryAdded(keys: Keys, e: Entry)
    requires EntryOk(e)
    ensures WithLine(keys, PrintedEntry(e)) == Added(keys, e) && NoNewline(PrintedEntry(e))
  {
    LineReadsBack(e);
    EntryHasNoNewline(e);
  }

  lemma LoadLine(line: string, rest: string, keys: Keys)
    requires NoNewline(line)
    ensures Loaded(line + "\n" + rest, keys) == Loaded(rest, WithLine(keys, line))
  {
    hide WithLine, GetLine;
    GetLineOf(line, rest);
  }

  lemma EntryHasNoNewline(e: Entry)
    requires KeyOk(e.key) && NoNewline(e.user)
    ensures NoNewline(PrintedEntry(e))
  {
  }

  lemma EntryNameHasNoNewline(line: string)
    requires NoNewline(line)
    ensures LineEntry(line).Some? ==> NoNewline(LineEntry(line).value.user)
  {
    hide LineEntry, ParseKey, TrimLeft, TrimRight, NamedKey, NamedUser, UserOf, KeyOk, NoNewline;
    if LineEntry(line).Some? {
      var e := LineEntry(line).value;
      var t := TrimRight(TrimLeft(line));
      EntryFrom(line, e);
      TrimmedStretch(line);
      ParsedKeyOk(NamedKey(t));
      assert NoNewline(e.key.comment) by {
        KeyOkComment(e.key);
      }
      NamesHaveNoNewline(t, e.key.comment);
    }
  }

  lemma KeyOkComment(k: Key)
    ensures KeyOk(k) ==> NoNewline(k.comment)
  {
  }

  lemma NamesHaveNoNewline(t: string, comment: string)
    ensures NoNewline(t) ==> NoNewline(NamedUser(t))
    ensures NoNewline(comment) ==> NoNewline(UserOf(comment))
  {
    hide IndexOf, Find;
  }

  lemma LineOfText(text: string)
    requires text != ""
    ensures NoNewline(GetLine(text).0)
  {
    LineHasNoNewline(text);
  }

  lemma {:induction false} LoadedNames(text: string, keys: Keys)
    requires forall u :: u in keys ==> NoNewline(u)
    ensures forall u :: u in Loaded(text, keys) ==> NoNewline(u)
    decreases |text|
  {
    if text != "" {
      hide LineEntry, NoNewline;
      LineOfText(text);
      EntryNameHasNoNewline(GetLine(text).0);
      LoadedNames(GetLine(text).1, WithLine(keys, GetLine(text).0));
    }
  }

  /** Exactly when a database of one key is the same after saving and loading, whatever the name. */
  lemma SingleReadsBackIff(e: Entry)
    requires KeyOk(e.key)
    ensures Loaded(PrintedEntries([e]), map[]) == map[e.user := [e.key]] <==> EntryOk(e)
  {
    if NoNewline(e.user) {
      LineReadsBackIff(e);
      EntryHasNoNewline(e);
      LoadOne(e);
    } else {
      hide Loaded, NoNewline;
      LoadedNames(PrintedEntries([e]), map[]);
      assert e.user in map[e.user := [e.key]];
    }
  }

  lemma LoadOne(e: Entry)
    requires NoNewline(PrintedEntry(e))
    ensures Loaded(PrintedEntries([e]), map[]) == map[e.user := [e.key]] <==> LineEntry(PrintedEntry(e)) == Some(e)
  {
    hide LineEntry, PrintedEntry, NoNewline;
    var line := PrintedEntry(e);
    assert [e][1..] == [] && PrintedEntries([]) == "";
    LoadLine(line, PrintedEntries([]), map[]);
    assert Loaded(PrintedEntries([e]), map[]) == WithLine(map[], line);
    OneAdded(LineEntry(line), e);
  }

  lemma OneAdded(read: Option<Entry>, e: Entry)
    ensures (if read.Some? then Added(map[], read.value) else map[]) == map[e.user := [e.key]] <==> read == Some(e)
  {
    if read.Some? {
      var x := read.value;
      assert KeysOf(map[], x.user) + [x.key] == [x.key];
      assert x.user in map[x.user := [x.key]];
      if map[x.user := [x.key]] == map[e.user := [e.key]] {
        assert x.user in map[e.user := [e.key]];
        assert [x.key][0] == [e.key][0];
      }
    } else {
      assert e.user in map[e.user := [e.key]];
    }
  }

  lemma {:induction false} AddAllAppend(keys: Keys, a: seq<Entry>, b: seq<Entry>)
    ensures AddAll(keys, a + b) == AddAll(AddAll(keys, a), b)
    decreases |a|
  {
    if a == [] {
      assert a + b == b;
    } else {
      assert (a + b)[1..] == a[1..] + b;
      AddAllAppend(Added(keys, a[0]), a[1..], b);
    }
  }

  lemma {:induction false} AddEntriesOf(keys: Keys, user: string, list: seq<Key>)
    ensures AddAll(keys, EntriesOf(user, list)) == if list == [] then keys else keys[user := KeysOf(keys, user) + list]
    decreases |list|
  {
    if list != [] {
      var next := Added(keys, Entry(user, list[0]));
      assert EntriesOf(user, list)[1..] == EntriesOf(user, list[1..]);
      AddEntriesOf(next, user, list[1..]);
      hide AddAll, EntriesOf;
      OneThenRest(KeysOf(keys, user), list);
    }
  }

  lemma OneThenRest(before: seq<Key>, list: seq<Key>)
    requires list != []
    ensures list[1..] == [] ==> before + [list[0]] == before + list
    ensures before + [list[0]] + list[1..] == before + list
  {
    assert [list[0]] + list[1..] == list;
    Regroup(before, [list[0]], list[1..]);
    assert list[1..] == [] ==> list == [list[0]];
  }

  /** No user is there without a key. */
  ghost predicate NoEmptyList(keys: Keys) {
    forall u :: u in keys ==> keys[u] != []
  }

  lemma {:induction false} AddAllUsers(before: Keys, keys: Keys, users: seq<string>)
    requires forall u :: u in users ==> u in keys && u !in before
    requires forall i, j :: 0 <= i < j < |users| ==> users[i] != users[j]
    requires NoEmptyList(keys)
    ensures var t := AddAll(before, AllEntries(keys, users));
            && (forall u :: u in t <==> u in users || u in before)
            && (forall u :: u in t ==> t[u] == if u in users then keys[u] else before[u])
    decreases |users|
  {
    if users != [] {
      var u := users[0];
      AddAllAppend(before, EntriesOf(u, keys[u]), AllEntries(keys, users[1..]));
      AddEntriesOf(before, u, keys[u]);
      assert KeysOf(before, u) + keys[u] == keys[u];
      AddAllUsers(before[u := keys[u]], keys, users[1..]);
    }
  }

  /** Every key of the database can be printed and read back. */
  ghost predicate Writable(keys: Keys) {
    forall u, i :: u in keys && 0 <= i < |keys[u]| ==> EntryOk(Entry(u, keys[u][i]))
  }

  lemma {:induction false} EntriesOk(keys: Keys, users: seq<string>)
    requires Writable(keys) && forall u :: u in users ==> u in keys
    ensures forall e :: e in AllEntries(keys, users) ==> EntryOk(e)
    decreases |users|
  {
    if users != [] {
      hide EntryOk;
      EntriesOk(keys, users[1..]);
      UserEntries(users[0], keys[users[0]]);
    }
  }

  lemma {:induction false} UserEntries(user: string, list: seq<Key>)
    ensures forall e :: e in EntriesOf(user, list) ==> exists i :: 0 <= i < |list| && e == Entry(user, list[i])
  {
    if list != [] {
      UserEntries(user, list[1..]);
    }
  }

  lemma HeaderSkipped(text: string, keys: Keys)
    ensures Loaded(HEADER1 + "\n" + (HEADER2 + "\n" + text), keys) == Loaded(text, keys)
  {
    HeaderLine(HEADER1);
    HeaderLine(HEADER2);
    BothNoNewline(" key-type key-data", " [comment]");
    BothNoNewline("# Format: username:", " key-type key-data" + " [comment]");
    hide *;
    LoadLine(HEADER1, HEADER2 + "\n" + text, keys);
    LoadLine(HEADER2, text, keys);
  }

  lemma BothNoNewline(a: string, b: string)
    requires NoNewline(a) && NoNewline(b)
    ensures NoNewline(a + b)
  {
  }

  lemma HeaderLine(line: string)
    requires line != "" && line[0] == '#'
    ensures forall keys :: WithLine(keys, line) == keys
  {
  }

  lemma EnumeratedAre(users: seq<string>, keys: Keys)
    requires Enumerates(users, keys)
    ensures forall u :: u in users <==> u in keys
  {
    assert forall u :: u in users <==> u in set v | v in users;
  }

  lemma LoadSaved(keys: Keys, users: seq<string>)
    requires (forall u :: u in users ==> u in keys) && Writable(keys)
    ensures Loaded(Saved(keys, users), map[]) == AddAll(map[], AllEntries(keys, users))
  {
    EntriesOk(keys, users);
    HeaderSkipped(PrintedEntries(AllEntries(keys, users)), map[]);
    hide EntryOk, Loaded, PrintedEntries, AllEntries, AddAll, Writable;
    LoadPrinted(AllEntries(keys, users), map[]);
  }

  /** Saving and loading gives the same users with the same keys in the same order, whatever the
      order in which the users are written. */
  lemma SaveThenLoad(keys: Keys, users: seq<string>)
    requires Enumerates(users, keys) && NoEmptyList(keys) && Writable(keys)
    ensures Loaded(SavedInOrder(keys, users), map[]) == keys
  {
    EnumeratedAre(users, keys);
    hide EntryOk, Loaded, Saved, AllEntries, AddAll, Writable;
    LoadSaved(keys, users);
    AddAllUsers(map[], keys, users);
    assert AddAll(map[], AllEntries(keys, users)) == keys;
  }

  // ---------- what a file looks like ----------

  /** The key types that are accepted. */
  lemma SupportedTypes(keyType: string)
    ensures Supported("ssh-rsa") && Supported("ssh-dss") && Supported("ssh-ed25519")
    ensures |keyType| >= 11 && keyType[..11] == "ecdsa-sha2-" ==> Supported(keyType)
    ensures Supported(keyType) ==>
              keyType in ["ssh-rsa", "ssh-dss", "ssh-ed25519"]
              || (|keyType| >= 11 && keyType[..11] == "ecdsa-sha2-")
  {
    var prefix := "ecdsa-sha2-";
    if |keyType| >= 11 && keyType[..11] == prefix {
      assert forall k :: 0 <= k < 11 ==> keyType[k] == keyType[..11][k];
      FindIs(keyType, prefix, 0, 0);
    }
    if Find(keyType, prefix, 0) == 0 {
      assert keyType[..11] == prefix;
    }
  }

  /** A line, word by word: the name, a colon, the type, the data, and the comment if there is one. */
  lemma LineText(user: string, keyType: string, data: string, comment: string)
    ensures comment != "" ==>
              PrintedEntry(Entry(user, Key(keyType, data, comment)))
              == user + ": " + keyType + " " + data + " " + comment
    ensures PrintedEntry(Entry(user, Key(keyType, data, ""))) == user + ": " + keyType + " " + data
  {
    assert user + (": " + (keyType + (" " + data + ""))) == user + ": " + keyType + " " + data;
    if comment != "" {
      assert user + (": " + (keyType + (" " + data + " " + comment)))
          == user + ": " + keyType + " " + data + " " + comment;
    }
  }

  /** A file is the two header lines and a line for each entry. */
  lemma {:induction false} FileText(entries: seq<Entry>, e: Entry)
    ensures PrintedEntries([]) == ""
    ensures PrintedEntries(entries + [e]) == PrintedEntries(entries) + PrintedEntry(e) + "\n"
  {
    hide PrintedEntry;
    if entries == [] {
      assert entries + [e] == [e] && [e][1..] == [];
      NoEntries(PrintedEntry(e) + "\n");
    } else {
      assert (entries + [e])[1..] == entries[1..] + [e];
      FileText(entries[1..], e);
      Regroup(PrintedEntry(entries[0]) + "\n", PrintedEntries(entries[1..]), PrintedEntry(e));
      Regroup(PrintedEntry(entries[0]) + "\n", PrintedEntries(entries[1..]) + PrintedEntry(e), "\n");
    }
  }

  lemma NoEntries(text: string)
    ensures text + PrintedEntries([]) == PrintedEntries([]) + text == text
  {
  }

  /** What an ordinary line is read as: a name without a colon or "ssh-" in it, a supported type that is the
      first of the listed ones to occur, data, and a comment. */
  lemma LineRead(user: string, keyType: string, data: string, comment: string)
    requires user != "" && ':' !in user && Find(user, "ssh-", 0) == -1 && user[0] !in ['#', ' ', '\t']
    requires IsWord(keyType) && IsWord(data) && Supported(keyType) && NoNewline(comment) && comment != ""
    requires comment[|comment| - 1] !in [' ', '\t']
    requires TypeAt(KEY_TYPES, keyType + " " + data + " " + comment, 0)
    ensures LineEntry(user + ": " + keyType + " " + data + " " + comment)
            == Some(Entry(user, Key(keyType, data, comment)))
  {
    hide *;
    LineText(user, keyType, data, comment);
    KeyText(keyType, data, comment);
    PlainEntry(user, keyType, data, comment);
    DirectReadsBack(Entry(user, Key(keyType, data, comment)));
  }

  lemma KeyText(keyType: string, data: string, comment: string)
    requires comment != ""
    ensures PrintedKey(Key(keyType, data, comment)) == keyType + " " + data + " " + comment
  {
    assert keyType + (" " + data + " " + comment) == keyType + " " + data + " " + comment;
  }

  lemma PlainEntry(user: string, keyType: string, data: string, comment: string)
    requires user != "" && ':' !in user && Find(user, "ssh-", 0) == -1 && user[0] !in ['#', ' ', '\t']
    requires IsWord(keyType) && IsWord(data) && Supported(keyType) && NoNewline(comment) && comment != ""
    requires comment[|comment| - 1] !in [' ', '\t']
    requires TypeAt(KEY_TYPES, PrintedKey(Key(keyType, data, comment)), 0)
    ensures var e := Entry(user, Key(keyType, data, comment)); KeyOk(e.key) && ReadsDirectly(e)
  {
    hide Find, TypeAt, Supported, IsWord, NoNewline, PrintedKey;
  }

  // ---------- changes ----------

  function Without(list: seq<Key>, data: string): seq<Key> {
    if list == [] then []
    else if list[0].data == data then Without(list[1..], data)
    else [list[0]] + Without(list[1..], data)
  }

  function AfterAdd(keys: Keys, user: string, text: string): Keys {
    if ParseKey(text).Some? then Added(keys, Entry(user, ParseKey(text).value)) else keys
  }

  function AfterRemove(keys: Keys, user: string, data: string): Keys {
    if user !in keys then keys
    else if Without(keys[user], data) == [] then keys - {user}
    else keys[user := Without(keys[user], data)]
  }

  /** Adding, removing and loading leave no user without a key. */
  lemma ChangesKeepLists(keys: Keys, user: string, text: string)
    requires NoEmptyList(keys)
    ensures NoEmptyList(AfterAdd(keys, user, text)) && NoEmptyList(AfterRemove(keys, user, text))
  {
  }

  lemma {:induction false} LoadKeepsLists(text: string, keys: Keys)
    requires NoEmptyList(keys)
    ensures NoEmptyList(Loaded(text, keys))
    decreases |text|
  {
    if text != "" {
      hide LineEntry;
      LoadKeepsLists(GetLine(text).1, WithLine(keys, GetLine(text).0));
    }
  }

  lemma {:induction false} WithoutAbsent(list: seq<Key>, data: string)
    requires forall i :: 0 <= i < |list| ==> list[i].data != data
    ensures Without(list, data) == list
  {
    if list != [] {
      WithoutAbsent(list[1..], data);
    }
  }

  lemma {:induction false} WithoutAppend(list: seq<Key>, k: Key, data: string)
    ensures Without(list + [k], data) == if k.data == data then Without(list, data) else Without(list, data) + [k]
  {
    if list == [] {
      assert list + [k] == [k];
    } else {
      assert (list + [k])[1..] == list[1..] + [k];
      WithoutAppend(list[1..], k, data);
    }
  }

  /** Removing a key that was just added gives the database from before, unless the user had a key
      with the same data already. */
  lemma RemoveUndoesAdd(keys: Keys, user: string, text: string)
    requires NoEmptyList(keys) && ParseKey(text).Some?
    requires forall i :: 0 <= i < |KeysOf(keys, user)| ==> KeysOf(keys, user)[i].data != ParseKey(text).value.data
    ensures AfterRemove(AfterAdd(keys, user, text), user, ParseKey(text).value.data) == keys
  {
    hide ParseKey;
    var k := ParseKey(text).value;
    WithoutAppend(KeysOf(keys, user), k, k.data);
    WithoutAbsent(KeysOf(keys, user), k.data);
  }

  // ---------- the program ----------

  class PublicKeyDatabase {
    const hasFile: bool
    var keys: Keys
    var file: string

    constructor (hasFile: bool, file: string)
      ensures keys == map[] && this.hasFile == hasFile && this.file == file
    {
      this.hasFile, this.file, keys := hasFile, file, map[];
    }

    /** The file may fail to open. */
    method Load(opens: bool) returns (ok: bool)
      modifies this`keys
      ensures ok == (hasFile && opens)
      ensures keys == if !hasFile then old(keys) else if opens then Loaded(file, map[]) else map[]
    {
      if !hasFile {
        return false;
      }
      keys := map[];
      if !opens {
        return false;
      }
      var text := file;
      while text != ""
        invariant Loaded(text, keys) == Loaded(file, map[])
        decreases |text|
      {
        hide LineEntry;
        var entry := ReadLine(GetLine(text).0);
        if entry.Some? {
          keys := keys[entry.value.user := KeysOf(keys, entry.value.user) + [entry.value.key]];
        }
        text := GetLine(text).1;
      }
      ok := true;
    }

    static method ReadLine(text: string) returns (entry: Option<Entry>)
      ensures entry == LineEntry(text)
    {
      hide Find, IndexOf, ParseKey, TrimLeft, TrimRight, UserOf, NamedUser, NamedKey;
      if text == "" || text[0] == '#' {
        return None;
      }
      var line := TrimRight(TrimLeft(text));
      if line == "" {
        return None;
      }
      var user, keyLine := SplitUser(line);
      var key := ParseKey(keyLine);
      if key.None? {
        return None;
      }
      if user == "" {
        user := UserOf(key.value.comment);
      }
      if user == "" {
        return None;
      }
      entry := Some(Entry(user, key.value));
    }

    static method SplitUser(line: string) returns (user: string, keyLine: string)
      ensures user == NamedUser(line) && keyLine == NamedKey(line)
    {
      hide Find, IndexOf, KeyLine, TrimLeft;
      user, keyLine := "", line;
      var colon := FindChar(line, ':', 0);
      var ssh := Find(line, "ssh-", 0);
      if colon != -1 && (ssh == -1 || colon < ssh) {
        user := line[..colon];
        keyLine := TrimLeft(line[colon + 1..]);
      }
      keyLine := ExtractKeyLine(keyLine);
    }

    static method ExtractKeyLine(line: string) returns (r: string)
      ensures r == KeyLine(KEY_TYPES, line)
    {
      hide Find;
      var i := 0;
      while i < |KEY_TYPES|
        invariant 0 <= i <= |KEY_TYPES|
        invariant KeyLine(KEY_TYPES[i..], line) == KeyLine(KEY_TYPES, line)
      {
        var at := Find(line, KEY_TYPES[i], 0);
        if at != -1 {
          return line[at..];
        }
        i := i + 1;
      }
      r := line;
    }

    /** `users` is the order in which the map is walked. The file may fail to open. */
    method Save(users: seq<string>, opens: bool) returns (ok: bool)
      requires forall u :: u in users ==> u in keys
      modifies this`file
      ensures ok == (hasFile && opens)
      ensures file == if ok then Saved(keys, users) else old(file)
    {
      if !hasFile || !opens {
        return false;
      }
      hide PrintedEntry;
      var text := HEADER1 + "\n" + (HEADER2 + "\n");
      var body := "";
      var i := 0;
      while i < |users|
        invariant 0 <= i <= |users|
        invariant PrintedEntries(AllEntries(keys, users)) == body + PrintedEntries(AllEntries(keys, users[i..]))
      {
        var list := keys[users[i]];
        var j := 0;
        ghost var rest := AllEntries(keys, users[i + 1..]);
        while j < |list|
          invariant 0 <= j <= |list|
          invariant PrintedEntries(AllEntries(keys, users))
                    == body + PrintedEntries(EntriesOf(users[i], list[j..]) + rest)
        {
          var line := PrintedEntry(Entry(users[i], list[j])) + "\n";
          PrintedNext(users[i], list[j..], rest);
          Regroup(body, line, PrintedEntries(EntriesOf(users[i], list[j..][1..]) + rest));
          assert list[j..][1..] == list[j + 1..];
          body := body + line;
          j := j + 1;
        }
        assert EntriesOf(users[i], list[j..]) + rest == rest;
        i := i + 1;
      }
      assert PrintedEntries(AllEntries(keys, users[i..])) == "";
      file := text + body;
      ok := true;
    }

    method AddKey(user: string, text: string, users: seq<string>, opens: bool) returns (ok: bool)
      requires Enumerates(users, AfterAdd(keys, user, text))
      modifies this
      ensures keys == AfterAdd(old(keys), user, text)
      ensures ok == (ParseKey(text).Some? && (!hasFile || opens))
      ensures file == if hasFile && ok then SavedInOrder(keys, users) else old(file)
    {
      var key := ParseKey(text);
      if key.None? {
        return false;
      }
      keys := keys[user := KeysOf(keys, user) + [key.value]];
      if hasFile {
        ok := Save(users, opens);
        return;
      }
      ok := true;
    }

    method RemoveKey(user: string, data: string, users: seq<string>, opens: bool) returns (ok: bool)
      requires Enumerates(users, AfterRemove(keys, user, data))
      modifies this
      ensures keys == AfterRemove(old(keys), user, data)
      ensures ok == (user in old(keys) && (!hasFile || opens))
      ensures file == if hasFile && ok then SavedInOrder(keys, users) else old(file)
    {
      if user !in keys {
        return false;
      }
      var left := Without(keys[user], data);
      keys := keys[user := left];
      if left == [] {
        keys := keys - {user};
        assert keys == old(keys) - {user};
      }
      if hasFile {
        ok := Save(users, opens);
        return;
      }
      ok := true;
    }
  }

  lemma PrintedNext(user: string, list: seq<Key>, rest: seq<Entry>)
    requires list != []
    ensures PrintedEntries(EntriesOf(user, list) + rest)
            == PrintedEntry(Entry(user, list[0])) + "\n" + PrintedEntries(EntriesOf(user, list[1..]) + rest)
  {
    hide PrintedEntry;
    assert (EntriesOf(user, list) + rest)[1..] == EntriesOf(user, list[1..]) + rest;
  }
}
