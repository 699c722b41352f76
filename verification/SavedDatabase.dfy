/** Exactly which public-key databases are the same after saving and loading. */
module SavedDatabase {
  import opened Text
  import opened KeyDatabase

  // ---------- what the lines of a file are read as ----------

  function Read(e: Entry): Option<Entry> {
    LineEntry(PrintedEntry(e))
  }

  /** The entries that the printed lines of `entries` are read as. */
  function Reads(entries: seq<Entry>): seq<Entry> {
    if entries == [] then []
    else (if Read(entries[0]).Some? then [Read(entries[0]).value] else []) + Reads(entries[1..])
  }

  predicate Printable(e: Entry) {
    KeyOk(e.key) && NoNewline(e.user)
  }

  lemma {:induction false} LoadReads(entries: seq<Entry>, keys: Keys)
    requires forall e :: e in entries ==> Printable(e)
    ensures Loaded(PrintedEntries(entries), keys) == AddAll(keys, Reads(entries))
    decreases |entries|
  {
    if entries != [] {
      var e := entries[0];
      hide LineEntry, PrintedEntry, Loaded, KeyOk, NoNewline;
      assert e in entries;
      EntryHasNoNewline(e);
      LoadLine(PrintedEntry(e), PrintedEntries(entries[1..]), keys);
      LoadReads(entries[1..], WithLine(keys, PrintedEntry(e)));
      FirstRead(keys, entries);
    }
  }

  lemma FirstRead(keys: Keys, entries: seq<Entry>)
    requires entries != []
    ensures AddAll(keys, Reads(entries)) == AddAll(WithLine(keys, PrintedEntry(entries[0])), Reads(entries[1..]))
  {
    hide LineEntry, PrintedEntry;
    var rest := Reads(entries[1..]);
    if Read(entries[0]).Some? {
      assert ([Read(entries[0]).value] + rest)[1..] == rest;
    } else {
      assert [] + rest == rest;
    }
  }

  /** The line of each entry is read as the entry at the same place. */
  predicate Each(entries: seq<Entry>, images: seq<Entry>) {
    |entries| == |images| && forall i :: 0 <= i < |entries| ==> Read(entries[i]) == Some(images[i])
  }

  lemma EachMore(entries: seq<Entry>, rest: seq<Entry>)
    requires entries != [] && Read(entries[0]).Some? && Each(entries[1..], rest)
    ensures Each(entries, [Read(entries[0]).value] + rest)
  {
    hide Read;
    forall i | 0 < i < |entries| ensures Read(entries[i]) == Some(rest[i - 1]) {
      assert entries[i] == entries[1..][i - 1];
    }
  }

  lemma {:induction false} ReadsAll(entries: seq<Entry>)
    ensures |Reads(entries)| <= |entries|
    ensures |Reads(entries)| == |entries| ==> Each(entries, Reads(entries))
  {
    if entries != [] {
      hide Read, Each;
      ReadsAll(entries[1..]);
      if Read(entries[0]).Some? && |Reads(entries)| == |entries| {
        EachMore(entries, Reads(entries[1..]));
      }
    } else {
      hide Read;
    }
  }

  // ---------- a database is the multiset of its entries ----------

  lemma {:induction false} EntriesCounted(keys: Keys, entries: seq<Entry>, user: string, k: Key)
    ensures multiset(KeysOf(AddAll(keys, entries), user))[k]
            == multiset(KeysOf(keys, user))[k] + multiset(entries)[Entry(user, k)]
    decreases |entries|
  {
    if entries != [] {
      EntriesCounted(Added(keys, entries[0]), entries[1..], user, k);
      assert entries == [entries[0]] + entries[1..];
      OneCounted(keys, entries[0], user, k);
    }
  }

  lemma OneCounted(keys: Keys, e: Entry, user: string, k: Key)
    ensures multiset(KeysOf(Added(keys, e), user))[k]
            == multiset(KeysOf(keys, user))[k] + if e == Entry(user, k) then 1 else 0
  {
    assert multiset(KeysOf(keys, e.user) + [e.key]) == multiset(KeysOf(keys, e.user)) + multiset{e.key};
  }

  lemma SameEntries(a: seq<Entry>, b: seq<Entry>)
    requires AddAll(map[], a) == AddAll(map[], b)
    ensures multiset(a) == multiset(b)
  {
    forall e ensures multiset(a)[e] == multiset(b)[e] {
      EntriesCounted(map[], a, e.user, e.key);
      EntriesCounted(map[], b, e.user, e.key);
    }
  }

  // ---------- sums over entries ----------

  function Sum(measure: Entry -> nat, entries: seq<Entry>): nat {
    if entries == [] then 0 else measure(entries[0]) + Sum(measure, entries[1..])
  }

  lemma {:induction false} SumWithout(measure: Entry -> nat, entries: seq<Entry>, i: nat)
    requires i < |entries|
    ensures Sum(measure, entries) == measure(entries[i]) + Sum(measure, entries[..i] + entries[i + 1..])
  {
    if i == 0 {
      assert entries[..0] + entries[1..] == entries[1..];
    } else {
      SumWithout(measure, entries[1..], i - 1);
      var rest := entries[..i] + entries[i + 1..];
      assert rest[1..] == entries[1..][..i - 1] + entries[1..][i..];
    }
  }

  lemma TakenOut(b: seq<Entry>, i: nat)
    requires i < |b|
    ensures multiset(b) == multiset{b[i]} + multiset(b[..i] + b[i + 1..])
  {
    assert b == b[..i] + ([b[i]] + b[i + 1..]);
    assert multiset(b) == multiset(b[..i]) + (multiset{b[i]} + multiset(b[i + 1..]));
  }

  lemma OneLess(x: Entry, m: multiset<Entry>, n: multiset<Entry>)
    requires multiset{x} + m == multiset{x} + n
    ensures m == n
  {
    forall e ensures m[e] == n[e] {
      assert (multiset{x} + m)[e] == (multiset{x} + n)[e];
    }
  }

  lemma SameWithout(a: seq<Entry>, b: seq<Entry>) returns (i: nat)
    requires a != [] && multiset(a) == multiset(b)
    ensures i < |b| && b[i] == a[0] && multiset(a[1..]) == multiset(b[..i] + b[i + 1..])
  {
    assert a[0] in multiset(b);
    i :| 0 <= i < |b| && b[i] == a[0];
    TakenOut(a, 0);
    assert a[..0] + a[1..] == a[1..];
    TakenOut(b, i);
    OneLess(a[0], multiset(a[1..]), multiset(b[..i] + b[i + 1..]));
  }

  lemma {:induction false} SumSame(measure: Entry -> nat, a: seq<Entry>, b: seq<Entry>)
    requires multiset(a) == multiset(b)
    ensures Sum(measure, a) == Sum(measure, b)
  {
    if a == [] {
      assert |multiset(b)| == 0;
    } else {
      var i := SameWithout(a, b);
      SumWithout(measure, b, i);
      SumSame(measure, a[1..], b[..i] + b[i + 1..]);
    }
  }

  lemma {:induction false} SumRises(measure: Entry -> nat, a: seq<Entry>, b: seq<Entry>)
    requires |a| == |b| && forall i :: 0 <= i < |a| ==> measure(a[i]) <= measure(b[i])
    ensures Sum(measure, a) <= Sum(measure, b)
    ensures Sum(measure, a) == Sum(measure, b) ==> forall i :: 0 <= i < |a| ==> measure(a[i]) == measure(b[i])
  {
    if a != [] {
      SumRises(measure, a[1..], b[1..]);
      if Sum(measure, a) == Sum(measure, b) {
        forall i | 0 <= i < |a| ensures measure(a[i]) == measure(b[i]) {
          assert i > 0 ==> a[i] == a[1..][i - 1] && b[i] == b[1..][i - 1];
        }
      }
    }
  }

  /** A measure that no pair lowers is the same in each pair when the two lists hold the same entries. */
  lemma SameInPairs(measure: Entry -> nat, a: seq<Entry>, b: seq<Entry>)
    requires multiset(a) == multiset(b) && |a| == |b|
    requires forall i :: 0 <= i < |a| ==> measure(a[i]) <= measure(b[i])
    ensures forall i :: 0 <= i < |a| ==> measure(a[i]) == measure(b[i])
  {
    SumSame(measure, a, b);
    SumRises(measure, a, b);
  }

  // ---------- key types in what is read ----------

  lemma MatchIn(whole: string, from: nat, part: string, pattern: string, i: int)
    requires from + |part| <= |whole| && whole[from..from + |part|] == part
    ensures MatchesAt(part, pattern, i) ==> MatchesAt(whole, pattern, from + i)
  {
    if MatchesAt(part, pattern, i) {
      forall k | 0 <= k < |pattern| ensures whole[from + i + k] == pattern[k] {
        assert whole[from + i + k] == whole[from..from + |part|][i + k];
      }
    }
  }

  /** A pattern without blanks lies on one side of a blank. */
  lemma MatchBeside(a: string, b: string, pattern: string, i: int)
    requires IsWord(pattern) && (b == "" || IsSpace(b[0])) && MatchesAt(a + b, pattern, i)
    ensures MatchesAt(a, pattern, i) || (b != "" && MatchesAt(b[1..], pattern, i - |a| - 1))
  {
    var s := a + b;
    MatchChar(s, pattern, i, if i <= |a| then |a| - i else 0);
    if i + |pattern| <= |a| {
      forall k | 0 <= k < |pattern| ensures a[i + k] == pattern[k] {
        assert s[i + k] == a[i + k];
      }
    } else {
      assert i > |a|;
      forall k | 0 <= k < |pattern| ensures b[1..][i - |a| - 1 + k] == pattern[k] {
        assert s[i + k] == b[i + k - |a|];
      }
    }
  }

  lemma ContainsAt(s: string, pattern: string, i: int)
    ensures MatchesAt(s, pattern, i) ==> Contains(s, pattern)
  {
  }

  lemma ContainsIn(whole: string, from: nat, part: string, pattern: string)
    requires from + |part| <= |whole| && whole[from..from + |part|] == part
    ensures Contains(part, pattern) ==> Contains(whole, pattern)
  {
    hide MatchesAt;
    if Contains(part, pattern) {
      var i :| 0 <= i <= |part| && MatchesAt(part, pattern, i);
      MatchIn(whole, from, part, pattern, i);
      ContainsAt(whole, pattern, from + i);
    }
  }

  /** The parts of a text that a key is read from, and where they stand in it. */
  lemma ParsedParts(s: string, k: Key)
    requires NoNewline(s) && ParseKey(s) == Some(k)
    ensures var (w1, r1) := ExtractWord(s);
            var (w2, r2) := ExtractWord(r1);
            && w1 == k.keyType && w2 == k.data && w1 != "" && w2 != ""
            && |r2| <= |r1| <= |s| && r1 == s[|s| - |r1|..] && r2 == s[|s| - |r2|..]
            && (r2 == "" || IsSpace(r2[0])) && k.comment == (if r2 == "" then "" else r2[1..])
  {
    BothWords(s);
    var r1 := ExtractWord(s).1;
    var r2 := ExtractWord(r1).1;
    WordStands(s);
    WordStands(r1);
    RestSuffix(s, r1, r2);
    WholeLine(r2);
    hide ExtractWord, Supported, RestOfLine, NoNewline;
  }

  lemma WordContains(s: string, pattern: string)
    requires ExtractWord(s).0 != ""
    ensures Contains(ExtractWord(s).0, pattern) ==> Contains(s, pattern)
  {
    WordStands(s);
    hide ExtractWord, Contains;
    var (w, r) := ExtractWord(s);
    ContainsIn(s, |s| - |r| - |w|, w, pattern);
  }

  lemma SuffixContains(s: string, r: string, pattern: string)
    requires |r| <= |s| && r == s[|s| - |r|..]
    ensures Contains(r, pattern) ==> Contains(s, pattern)
  {
    hide Contains;
    assert s[|s| - |r|..|s| - |r| + |r|] == r;
    ContainsIn(s, |s| - |r|, r, pattern);
  }

  /** A key type occurs in a printed key only if it occurs in the text that the key was read from. */
  lemma TypeFromText(s: string, k: Key, pattern: string)
    requires NoNewline(s) && ParseKey(s) == Some(k) && IsWord(pattern)
    ensures Contains(PrintedKey(k), pattern) ==> Contains(s, pattern)
  {
    ParsedParts(s, k);
    hide ExtractWord, ParseKey, NoNewline, IsWord, Contains, PrintedKey;
    var r1 := ExtractWord(s).1;
    var r2 := ExtractWord(r1).1;
    PartContains(k, pattern);
    WordContains(s, pattern);
    WordContains(r1, pattern);
    SuffixContains(s, r1, pattern);
    SuffixContains(s, r2, pattern);
    if r2 != "" {
      SuffixContains(r2, r2[1..], pattern);
    }
  }

  lemma PartContains(k: Key, pattern: string)
    requires IsWord(pattern)
    ensures Contains(PrintedKey(k), pattern) ==>
            Contains(k.keyType, pattern) || Contains(k.data, pattern) || Contains(k.comment, pattern)
  {
    var tail := if k.comment == "" then "" else " " + k.comment;
    var rest := " " + k.data + tail;
    hide IsWord, MatchesAt;
    if Contains(PrintedKey(k), pattern) {
      var i :| 0 <= i <= |PrintedKey(k)| && MatchesAt(PrintedKey(k), pattern, i);
      MatchBeside(k.keyType, rest, pattern, i);
      assert rest[1..] == k.data + tail;
      ContainsAt(k.keyType, pattern, i);
      if !MatchesAt(k.keyType, pattern, i) {
        var j := i - |k.keyType| - 1;
        MatchBeside(k.data, tail, pattern, j);
        ContainsAt(k.data, pattern, j);
        ContainsAt(k.comment, pattern, j - |k.data| - 1);
        assert tail != "" ==> tail[1..] == k.comment;
      }
    }
  }

  /** A key type that begins the text begins the printed key. */
  lemma TypeBegins(s: string, k: Key, pattern: string)
    requires NoNewline(s) && ParseKey(s) == Some(k) && IsWord(pattern) && MatchesAt(s, pattern, 0)
    ensures MatchesAt(PrintedKey(k), pattern, 0)
  {
    ParsedParts(s, k);
    var (w1, r1) := ExtractWord(s);
    WordStands(s);
    hide ExtractWord, ParseKey, NoNewline;
    var at := |s| - |r1| - |w1|;
    assert s[0] == pattern[0] && at == 0;
    MatchChar(s, pattern, 0, |w1|);
    assert |pattern| <= |w1|;
    forall j | 0 <= j < |pattern| ensures PrintedKey(k)[j] == pattern[j] {
      assert w1[j] == s[0..|w1|][j];
    }
  }

  lemma {:induction false} TypesStay(types: seq<string>, s: string, k: Key)
    requires forall i :: 0 <= i < |types| ==> IsWord(types[i])
    requires NoNewline(s) && ParseKey(s) == Some(k) && TypeAt(types, s, 0)
    ensures TypeAt(types, PrintedKey(k), 0)
  {
    if types != [] {
      hide ParseKey, PrintedKey, NoNewline, IsWord, Find;
      TypeFromText(s, k, types[0]);
      FindContains(s, types[0]);
      FindContains(PrintedKey(k), types[0]);
      if Find(s, types[0], 0) == -1 {
        TypesStay(types[1..], s, k);
      } else {
        TypeBegins(s, k, types[0]);
      }
    }
  }

  lemma {:induction false} KeyLineAgain(types: seq<string>, line: string)
    requires forall i :: 0 <= i < |types| ==> types[i] != ""
    ensures TypeAt(types, KeyLine(types, line), 0)
  {
    if types != [] {
      hide MatchesAt;
      var at := Find(line, types[0], 0);
      if at != -1 {
        SuffixMatch(line, at, types[0]);
      } else {
        KeyLineAgain(types[1..], line);
        NotInSuffix(types[1..], line, types[0]);
      }
    }
  }

  lemma SuffixMatch(line: string, at: nat, pattern: string)
    requires MatchesAt(line, pattern, at)
    ensures at <= |line| && MatchesAt(line[at..], pattern, 0)
  {
  }

  lemma {:induction false} KeyLineEnds(types: seq<string>, line: string)
    ensures |KeyLine(types, line)| <= |line| && KeyLine(types, line) == line[|line| - |KeyLine(types, line)|..]
  {
    if types != [] && Find(line, types[0], 0) == -1 {
      KeyLineEnds(types[1..], line);
    }
  }

  lemma NotInSuffix(types: seq<string>, line: string, pattern: string)
    requires Find(line, pattern, 0) == -1
    ensures Find(KeyLine(types, line), pattern, 0) == -1
  {
    hide MatchesAt;
    KeyLineEnds(types, line);
    var r := KeyLine(types, line);
    hide KeyLine;
    var i := Find(r, pattern, 0);
    MatchIn(line, |line| - |r|, r, pattern, i);
    assert line[|line| - |r|..|line| - |r| + |r|] == r;
  }

  lemma TypesAreWords()
    ensures forall i :: 0 <= i < |KEY_TYPES| ==> IsWord(KEY_TYPES[i]) && KEY_TYPES[i] != ""
  {
  }

  // ---------- what is read is read again ----------

  /** What every entry that was read from a line satisfies. */
  lemma ReadShape(line: string, e: Entry)
    requires NoNewline(line) && LineEntry(line) == Some(e)
    ensures Printable(e) && e.user != "" && CommentOk(e.key.comment) && TypeAt(KEY_TYPES, PrintedKey(e.key), 0)
  {
    hide LineEntry, ParseKey, TrimLeft, TrimRight, NamedUser, UserOf, KeyOk, NoNewline, Trimmed, CommentOk, PrintedKey,
      TypeAt, KeyLine, AfterUser;
    var t := TrimRight(TrimLeft(line));
    EntryFrom(line, e);
    TrimmedStretch(line);
    CommentEnds(t, e.key);
    KeyStretch(t);
    TrimmedHasNoNewline(NamedKey(t));
    ParsedKeyOk(NamedKey(t));
    EntryNameHasNoNewline(line);
    TypesAreWords();
    KeyLineAgain(KEY_TYPES, AfterUser(t));
    TypesStay(KEY_TYPES, NamedKey(t), e.key);
  }

  lemma TrimmedHasNoNewline(t: string)
    requires Trimmed(t)
    ensures NoNewline(t)
  {
  }

  /** The line has a name before its key. */
  predicate ShowsName(line: string) {
    NamedUser(TrimRight(TrimLeft(line))) != ""
  }

  /** A name that was read from before the key can stand there again, unless it begins with a '#'. */
  lemma DirectName(line: string, e: Entry)
    requires NoNewline(line) && LineEntry(line) == Some(e) && ShowsName(line)
    ensures UserOk(e.user) || e.user[0] == '#'
  {
    hide LineEntry, ParseKey, TrimLeft, TrimRight, UserOf, NoNewline, NamedKey, IsBlank, Find, IndexOf;
    var t := TrimRight(TrimLeft(line));
    EntryFrom(line, e);
    TrimmedStretch(line);
    var c := IndexOf(t, ':', 0);
    BeforeIndex(t, ':', 0);
    NoSshBefore(t, c);
  }

  lemma MarkedIsSkipped(e: Entry)
    requires Printable(e) && e.user != "" && e.user[0] == '#'
    ensures Read(e) == None
  {
    EntryShape(e);
  }

  lemma DirectAgain(line: string, e: Entry)
    requires NoNewline(line) && LineEntry(line) == Some(e) && ShowsName(line)
    requires Read(e).Some?
    ensures ReadsDirectly(e)
  {
    hide *;
    ReadShape(line, e);
    DirectName(line, e);
    DirectParts(e);
    if e.user[0] == '#' {
      MarkedIsSkipped(e);
    }
  }

  lemma DirectParts(e: Entry)
    requires CommentOk(e.key.comment) && TypeAt(KEY_TYPES, PrintedKey(e.key), 0)
    ensures UserOk(e.user) ==> ReadsDirectly(e)
  {
    hide CommentOk, TypeAt, PrintedKey, UserOk;
  }

  /** A text that ends in a printed key, with a word before it, is read as a longer key. */
  lemma HeadWord(h: string, rest: string)
    requires h != "" && !IsSpace(h[|h| - 1]) && rest != "" && IsSpace(rest[0])
    ensures var s := h + rest;
            var r := ExtractWord(s).1;
            && ExtractWord(s).0 != "" && |rest| <= |r| <= |s| && r == s[|s| - |r|..]
  {
    var s := h + rest;
    assert s[|h| - 1] == h[|h| - 1] && s[|h|] == rest[0];
    SkipIs(s);
    assert ExtractWord(s).0 != "" by {
      SomeWord(s, |h| - 1);
    }
    WordStands(s);
    var (w, r) := ExtractWord(s);
    var at := |s| - |r| - |w|;
    hide ExtractWord;
    assert at <= |h| - 1;
    SliceChar(s, at, w, |h| - at);
  }

  lemma SliceChar(s: string, at: nat, w: string, i: nat)
    requires at + |w| <= |s| && s[at..at + |w|] == w
    ensures i < |w| ==> w[i] == s[at + i]
  {
  }

  lemma SomeWord(s: string, i: nat)
    requires i < |s| && !IsSpace(s[i])
    ensures ExtractWord(s).0 != ""
  {
    SkipIs(s);
  }

  lemma SplitSuffix(h: string, rest: string, r: string)
    requires |rest| <= |r| <= |h + rest| && r == (h + rest)[|h + rest| - |r|..]
    ensures |r| == |rest| ==> r == rest
    ensures |r| > |rest| ==> r == h[|h + rest| - |r|..] + rest
  {
  }

  /** The first word lies before the printed key, and so does the second or it is the printed type. */
  lemma WordsAhead(h: string, rest: string)
    requires h != "" && !IsSpace(h[|h| - 1]) && rest != "" && IsSpace(rest[0])
    ensures var r1 := ExtractWord(h + rest).1;
            r1 == rest || |ExtractWord(r1).1| >= |rest|
  {
    var s := h + rest;
    HeadWord(h, rest);
    hide ExtractWord;
    var r1 := ExtractWord(s).1;
    SplitSuffix(h, rest, r1);
    if r1 != rest {
      var h1 := h[|s| - |r1|..];
      assert h1[|h1| - 1] == h[|h| - 1];
      HeadWord(h1, rest);
    }
  }

  lemma ParsedSize(s: string, k: Key)
    requires NoNewline(s) && ParseKey(s) == Some(k)
    ensures var (w1, r1) := ExtractWord(s);
            var (w2, r2) := ExtractWord(r1);
            w1 != "" && |PrintedKey(k)| >= |w1| + 1 + |w2| + if |r2| > 1 then |r2| else 0
  {
    ParsedParts(s, k);
    ParsedKeyOk(s);
    KeyShape(k);
    hide ExtractWord, ParseKey, KeyOk, NoNewline, PrintedKey;
  }

  lemma KeyGrows(h: string, k: Key, more: Key)
    requires KeyOk(k) && h != "" && !IsSpace(h[|h| - 1])
    requires NoNewline(h + (" " + PrintedKey(k))) && ParseKey(h + (" " + PrintedKey(k))) == Some(more)
    ensures |PrintedKey(more)| > |PrintedKey(k)|
  {
    hide *;
    var rest := " " + PrintedKey(k);
    assert IsSpace(rest[0]) by {
      BlankIsSpace();
    }
    WordsAhead(h, rest);
    ParsedSize(h + rest, more);
    PrintedWord(k);
    KeyNotEmpty(k);
  }

  lemma BlankIsSpace()
    ensures IsSpace(' ')
  {
  }

  lemma KeyNotEmpty(k: Key)
    ensures |PrintedKey(k)| > 0
  {
  }

  lemma PrintedWord(k: Key)
    requires KeyOk(k)
    ensures var (w, r) := ExtractWord(" " + PrintedKey(k));
            w == k.keyType && |w| + |r| == |PrintedKey(k)| && |r| > 1
  {
    var tail := " " + k.data + if k.comment == "" then "" else " " + k.comment;
    KeyShape(k);
    hide ExtractWord;
    assert " " + PrintedKey(k) == " " + k.keyType + tail;
    ExtractThen(k.keyType, tail);
  }

  lemma {:induction false} KeyLineReaches(types: seq<string>, before: string, key: string)
    requires TypeAt(types, key, 0)
    ensures |key| <= |KeyLine(types, before + key)| <= |before + key|
  {
    if types != [] {
      var line := before + key;
      var at := Find(line, types[0], 0);
      assert line[|before|..|before| + |key|] == key;
      hide MatchesAt;
      MatchIn(line, |before|, key, types[0], Find(key, types[0], 0));
      if at == -1 {
        KeyLineReaches(types[1..], before, key);
      } else if at > |before| {
        MatchBack(before, key, types[0], at);
      } else {
        MatchInside(line, types[0], at);
      }
    }
  }

  lemma MatchBack(before: string, key: string, pattern: string, at: int)
    requires MatchesAt(before + key, pattern, at) && at >= |before|
    ensures MatchesAt(key, pattern, at - |before|) && at <= |before + key|
  {
    forall k | 0 <= k < |pattern| ensures key[at - |before| + k] == pattern[k] {
      assert (before + key)[at + k] == key[at - |before| + k];
    }
  }

  lemma MatchInside(s: string, pattern: string, at: int)
    requires MatchesAt(s, pattern, at)
    ensures 0 <= at <= |s|
  {
  }

  function Size(e: Entry): nat {
    |PrintedKey(e.key)|
  }

  /** What an entry that was read is read as itself: it is read again as it is, or it is one whose name is
      read from before the key from then on, or one with a longer key. */
  ghost predicate Advances(e: Entry, next: Entry) {
    next == e || (!ReadsDirectly(e) && (ReadsDirectly(next) || Size(next) > Size(e)))
  }

  lemma DirectlyRead(e: Entry)
    requires Printable(e) && ReadsDirectly(e)
    ensures Read(e) == Some(e)
  {
    hide LineEntry, PrintedEntry, KeyOk, NoNewline, ReadsDirectly;
    LineReadsBack(e);
  }

  lemma PrintedClean(e: Entry)
    requires Printable(e)
    ensures NoNewline(PrintedEntry(e)) && LineEntry(PrintedEntry(e)) == Read(e)
  {
    hide LineEntry, PrintedEntry, KeyOk, NoNewline;
    EntryHasNoNewline(e);
  }

  lemma SearchedEnds(user: string)
    ensures var before := Searched(user);
            before != "" ==> |before| >= 2 && before[|before| - 2] == ':' && before[|before| - 1] == ' '
  {
    hide TrimLeft;
    var end := ": ";
    assert end[0] == ':' && end[1] == ' ';
  }

  /** A key line that reaches back over the printed key. */
  lemma LongerLine(before: string, k: Key, line: string, more: Key)
    requires KeyOk(k) && NoNewline(line) && ParseKey(line) == Some(more) && line != "" && !IsBlank(line[0])
    requires before != "" ==> |before| >= 2 && before[|before| - 2] == ':' && before[|before| - 1] == ' '
    requires |PrintedKey(k)| < |line| <= |before + PrintedKey(k)|
    requires line == (before + PrintedKey(k))[|before + PrintedKey(k)| - |line|..]
    ensures |PrintedKey(more)| > |PrintedKey(k)|
  {
    hide ParseKey, PrintedKey, KeyOk, NoNewline;
    var i := |before + PrintedKey(k)| - |line|;
    assert line[0] == before[i];
    var h := before[i..|before| - 1];
    assert h[|h| - 1] == before[|before| - 2];
    assert line == h + (" " + PrintedKey(k));
    KeyGrows(h, k, more);
  }

  lemma CommentAgain(line: string, e: Entry, next: Entry)
    requires NoNewline(line) && LineEntry(line) == Some(e) && Read(e) == Some(next)
    requires !ShowsName(line) && !ShowsName(PrintedEntry(e))
    ensures next == e || Size(next) > Size(e)
  {
    hide *;
    ReadShape(line, e);
    CommentName(line, e);
    PrintedClean(e);
    CommentName(PrintedEntry(e), next);
    PrintableKey(e);
    TrimmedShape(e);
    ShowsNoName(PrintedEntry(e));
    TrimmedStretch(PrintedEntry(e));
    NamelessKeyLine(e);
    SameKeyOrMore(TrimLeft(PrintedEntry(e)), Searched(e.user), e, next);
  }

  lemma ShowsNoName(line: string)
    requires !ShowsName(line)
    ensures NamedUser(TrimRight(TrimLeft(line))) == ""
  {
    hide NamedUser;
  }

  lemma CommentName(line: string, e: Entry)
    requires LineEntry(line) == Some(e) && !ShowsName(line)
    ensures e.user == UserOf(e.key.comment) && ParseKey(NamedKey(TrimRight(TrimLeft(line)))) == Some(e.key)
  {
    hide LineEntry, UserOf, ParseKey, NamedKey, NamedUser;
    EntryFrom(line, e);
  }

  lemma PrintableKey(e: Entry)
    requires Printable(e)
    ensures KeyOk(e.key)
  {
  }

  lemma SameKeyOrMore(t: string, before: string, e: Entry, next: Entry)
    requires Trimmed(t) && KeyOk(e.key) && TypeAt(KEY_TYPES, PrintedKey(e.key), 0) && before == Searched(e.user)
    requires NamedKey(t) == KeyLine(KEY_TYPES, before + PrintedKey(e.key)) && ParseKey(NamedKey(t)) == Some(next.key)
    requires e.user == UserOf(e.key.comment) && next.user == UserOf(next.key.comment)
    ensures next == e || Size(next) > Size(e)
  {
    hide NamedKey, KeyLine, TypeAt, ParseKey, PrintedKey, KeyOk, UserOf, Searched, NoNewline;
    var key, line := PrintedKey(e.key), NamedKey(t);
    KeyStretch(t);
    KeyLineReaches(KEY_TYPES, before, key);
    KeyLineEnds(KEY_TYPES, before + key);
    if |line| == |key| {
      assert line == (before + key)[|before|..] == key;
      ParsePrintedKey(e.key);
    } else {
      SearchedEnds(e.user);
      LongerLine(before, e.key, line, next.key);
    }
  }

  lemma ReadAgain(line: string, e: Entry, next: Entry)
    requires NoNewline(line) && LineEntry(line) == Some(e) && Read(e) == Some(next) && Read(next).Some?
    ensures Advances(e, next)
  {
    hide LineEntry, PrintedEntry, NoNewline, ReadsDirectly, ShowsName, Size, Printable, CommentOk, TypeAt, PrintedKey,
      Read;
    ReadShape(line, e);
    PrintedClean(e);
    if ReadsDirectly(e) {
      DirectlyRead(e);
    } else if ShowsName(line) {
      DirectAgain(line, e);
    } else if ShowsName(PrintedEntry(e)) {
      DirectAgain(PrintedEntry(e), next);
    } else {
      CommentAgain(line, e, next);
    }
  }

  // ---------- the whole database ----------

  /** What every key in a database that was loaded or changed by the program satisfies. */
  ghost predicate KeysOk(keys: Keys) {
    forall u, i :: u in keys && 0 <= i < |keys[u]| ==> KeyOk(keys[u][i])
  }

  lemma KeyReadIsOk(line: string)
    ensures LineEntry(line).Some? ==> KeyOk(LineEntry(line).value.key)
  {
    hide LineEntry, ParseKey, NamedKey, NamedUser, UserOf, KeyOk, TrimLeft, TrimRight;
    if LineEntry(line).Some? {
      EntryFrom(line, LineEntry(line).value);
      ParsedKeyOk(NamedKey(TrimRight(TrimLeft(line))));
    }
  }

  lemma AddedKeepsKeys(keys: Keys, e: Entry)
    requires KeysOk(keys) && KeyOk(e.key)
    ensures KeysOk(Added(keys, e))
  {
    hide KeyOk;
  }

  lemma {:induction false} LoadKeepsKeys(text: string, keys: Keys)
    requires KeysOk(keys)
    ensures KeysOk(Loaded(text, keys))
    decreases |text|
  {
    if text != "" {
      hide LineEntry, KeyOk, KeysOk, Added;
      var line := GetLine(text).0;
      KeyReadIsOk(line);
      if LineEntry(line).Some? {
        AddedKeepsKeys(keys, LineEntry(line).value);
      }
      LoadKeepsKeys(GetLine(text).1, WithLine(keys, line));
    }
  }

  lemma {:induction false} WithoutFrom(list: seq<Key>, data: string)
    ensures forall k :: k in Without(list, data) ==> k in list
  {
    if list != [] {
      WithoutFrom(list[1..], data);
    }
  }

  lemma ChangesKeepKeys(keys: Keys, user: string, text: string)
    requires KeysOk(keys)
    ensures KeysOk(AfterAdd(keys, user, text)) && KeysOk(AfterRemove(keys, user, text))
  {
    hide ParseKey, KeyOk;
    ParsedKeyOk(text);
    if ParseKey(text).Some? {
      AddedKeepsKeys(keys, Entry(user, ParseKey(text).value));
    }
    if user in keys {
      RemovedKeepsKeys(keys, user, text);
    }
  }

  lemma RemovedKeepsKeys(keys: Keys, user: string, data: string)
    requires KeysOk(keys) && user in keys
    ensures KeysOk(AfterRemove(keys, user, data))
  {
    hide KeyOk;
    var left := Without(keys[user], data);
    WithoutFrom(keys[user], data);
    forall i | 0 <= i < |left| ensures KeyOk(left[i]) {
      assert left[i] in keys[user];
    }
  }

  function Directness(e: Entry): nat {
    if ReadsDirectly(e) then 1 else 0
  }

  /** When the lines are read as the entries that were written, in some order, each line is read as its
      own entry. */
  lemma EachReadsBack(entries: seq<Entry>)
    requires forall e :: e in entries ==> Printable(e)
    requires multiset(Reads(entries)) == multiset(entries)
    ensures forall e :: e in entries ==> Read(e) == Some(e)
  {
    var images := Reads(entries);
    hide Read, Reads, Printable, ReadsDirectly, Size;
    SameLength(images, entries);
    ReadsAll(entries);
    forall i | 0 <= i < |entries| ensures Advances(entries[i], images[i]) {
      IsImage(entries, i);
    }
    SameInPairs(Directness, entries, images);
    forall i | 0 <= i < |entries| ensures Size(entries[i]) <= Size(images[i]) {
      assert Advances(entries[i], images[i]);
    }
    SameInPairs(Size, entries, images);
    forall e | e in entries ensures Read(e) == Some(e) {
      var i :| 0 <= i < |entries| && entries[i] == e;
      assert Advances(entries[i], images[i]);
    }
  }

  lemma SameLength(a: seq<Entry>, b: seq<Entry>)
    requires multiset(a) == multiset(b)
    ensures |a| == |b|
  {
    assert |multiset(a)| == |a| && |multiset(b)| == |b|;
  }

  /** Every entry was read from the line of some entry, and is read as something itself. */
  lemma IsImage(entries: seq<Entry>, i: nat)
    requires i < |entries| == |Reads(entries)| && multiset(Reads(entries)) == multiset(entries)
    requires forall e :: e in entries ==> Printable(e)
    requires Each(entries, Reads(entries))
    ensures Advances(entries[i], Reads(entries)[i])
  {
    hide Read, Reads, Printable, Advances, LineEntry, NoNewline;
    var images := Reads(entries);
    assert entries[i] in multiset(images) && images[i] in multiset(entries);
    var from :| 0 <= from < |images| && images[from] == entries[i];
    var to :| 0 <= to < |entries| && entries[to] == images[i];
    PrintedClean(entries[from]);
    ReadAgain(PrintedEntry(entries[from]), entries[i], images[i]);
  }

  lemma {:induction false} AllPrintable(keys: Keys, users: seq<string>)
    requires KeysOk(keys) && forall u :: u in users ==> u in keys && NoNewline(u)
    ensures forall e :: e in AllEntries(keys, users) ==> Printable(e)
    decreases |users|
  {
    if users != [] {
      hide KeyOk, NoNewline;
      AllPrintable(keys, users[1..]);
      UserEntries(users[0], keys[users[0]]);
    }
  }

  lemma {:induction false} EntryListed(keys: Keys, users: seq<string>, user: string, i: nat)
    requires (forall u :: u in users ==> u in keys) && user in users && i < |keys[user]|
    ensures Entry(user, keys[user][i]) in AllEntries(keys, users)
    decreases |users|
  {
    if users[0] == user {
      EntryOfList(user, keys[user], i);
    } else {
      EntryListed(keys, users[1..], user, i);
    }
  }

  lemma {:induction false} EntryOfList(user: string, list: seq<Key>, i: nat)
    requires i < |list|
    ensures Entry(user, list[i]) in EntriesOf(user, list)
  {
    if i > 0 {
      EntryOfList(user, list[1..], i - 1);
    }
  }

  /** Saving and loading gives the same database, whatever the order in which the users are written, exactly
      when every entry can be read back. */
  lemma SaveThenLoadIff(keys: Keys, users: seq<string>)
    requires Enumerates(users, keys) && NoEmptyList(keys) && KeysOk(keys)
    ensures Loaded(SavedInOrder(keys, users), map[]) == keys <==> Writable(keys)
  {
    hide Loaded, Saved, Writable, NoEmptyList;
    if Writable(keys) {
      SaveThenLoad(keys, users);
    } else if Loaded(SavedInOrder(keys, users), map[]) == keys {
      EnumeratedAre(users, keys);
      KeptIsWritable(keys, users);
    }
  }

  lemma KeptIsWritable(keys: Keys, users: seq<string>)
    requires (forall u :: u in users <==> u in keys) && NoEmptyList(keys) && KeysOk(keys)
    requires forall i, j :: 0 <= i < j < |users| ==> users[i] != users[j]
    requires Loaded(Saved(keys, users), map[]) == keys
    ensures Writable(keys)
  {
    hide Loaded, NoEmptyList, KeyOk, NoNewline, AllEntries, AddAll, PrintedEntries, EntryOk, Printable, Reads, Read,
      HEADER1, HEADER2;
    var entries := AllEntries(keys, users);
    LoadedNames(Saved(keys, users), map[]);
    AllPrintable(keys, users);
    HeaderSkipped(PrintedEntries(entries), map[]);
    LoadReads(entries, map[]);
    AddAllUsers(map[], keys, users);
    assert AddAll(map[], entries) == keys;
    SameEntries(Reads(entries), entries);
    EachReadsBack(entries);
    forall u, i | u in keys && 0 <= i < |keys[u]| ensures EntryOk(Entry(u, keys[u][i])) {
      EntryListed(keys, users, u, i);
      ReadMeansOk(Entry(u, keys[u][i]));
    }
  }

  lemma ReadMeansOk(e: Entry)
    requires Printable(e) && Read(e) == Some(e)
    ensures EntryOk(e)
  {
    hide LineEntry, PrintedEntry, KeyOk, NoNewline, ReadsDirectly, ReadsByComment;
    LineReadsBackIff(e);
  }
}
