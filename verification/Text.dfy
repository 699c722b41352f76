/** The parts of `std::string` and `std::istringstream` that the daemon's text handling uses. */
module Text {

  datatype Option<+T> = None | Some(value: T)

  predicate MatchesAt<T(==)>(s: seq<T>, pattern: seq<T>, i: int) {
    0 <= i && i + |pattern| <= |s| && forall k :: 0 <= k < |pattern| ==> s[i + k] == pattern[k]
  }

  predicate Contains<T(==)>(s: seq<T>, pattern: seq<T>) {
    exists i :: 0 <= i <= |s| && MatchesAt(s, pattern, i)
  }

  /** The first match at or after `from`, or -1. */
  function Find<T(==)>(s: seq<T>, pattern: seq<T>, from: nat): (r: int)
    ensures r == -1 || (from <= r && MatchesAt(s, pattern, r))
    ensures forall i :: from <= i && (r == -1 || i < r) ==> !MatchesAt(s, pattern, i)
  {
    if exists i :: from <= i <= |s| && MatchesAt(s, pattern, i) then
      var i :| from <= i <= |s| && MatchesAt(s, pattern, i);
      FirstMatch(s, pattern, from, i);
      var first :| from <= first <= |s| && IsFirst(s, pattern, from, first);
      first
    else -1
  }

  predicate IsFirst<T(==)>(s: seq<T>, pattern: seq<T>, from: nat, i: int) {
    MatchesAt(s, pattern, i) && forall k :: from <= k < i ==> !MatchesAt(s, pattern, k)
  }

  lemma FirstMatch<T>(s: seq<T>, pattern: seq<T>, from: nat, i: int)
    requires from <= i <= |s| && MatchesAt(s, pattern, i)
    ensures exists first :: from <= first <= |s| && IsFirst(s, pattern, from, first)
    decreases i - from
  {
    if k :| from <= k < i && MatchesAt(s, pattern, k) {
      FirstMatch(s, pattern, from, k);
    } else {
      assert IsFirst(s, pattern, from, i);
    }
  }

  lemma FindContains<T>(s: seq<T>, pattern: seq<T>)
    ensures Find(s, pattern, 0) != -1 <==> Contains(s, pattern)
  {
    var f := Find(s, pattern, 0);
    if Contains(s, pattern) {
      var i :| 0 <= i <= |s| && MatchesAt(s, pattern, i);
      assert f == -1 ==> !MatchesAt(s, pattern, i);
    }
  }

  lemma FindIs<T>(s: seq<T>, pattern: seq<T>, from: nat, r: nat)
    requires from <= r && MatchesAt(s, pattern, r)
    requires forall i :: from <= i < r ==> !MatchesAt(s, pattern, i)
    ensures Find(s, pattern, from) == r
  {
    var f := Find(s, pattern, from);
    assert f == -1 ==> !MatchesAt(s, pattern, r);
  }

  lemma Regroup<T>(a: seq<T>, b: seq<T>, c: seq<T>)
    ensures a + (b + c) == (a + b) + c
  {
  }

  lemma SliceGrows<T>(s: seq<T>, from: nat, k: nat)
    requires from <= k < |s|
    ensures s[from..k] + [s[k]] == s[from..k + 1]
  {
  }

  lemma SliceTail<T>(s: seq<T>, from: nat, until: nat)
    requires from < until <= |s|
    ensures [s[from]] + s[from + 1..until] == s[from..until]
  {
  }

  /** `left` begins `whole`, and `right` is the rest. Stated place by place, and from the parts to
      the whole only, which keeps proofs that cut texts in several ways short. */
  predicate Joins<T(==)>(whole: seq<T>, left: seq<T>, right: seq<T>) {
    && |whole| == |left| + |right|
    && (forall k {:trigger left[k]} :: 0 <= k < |left| ==> left[k] == whole[k])
    && (forall k {:trigger right[k]} :: 0 <= k < |right| ==> right[k] == whole[k + |left|])
  }

  lemma JoinsIs<T>(whole: seq<T>, left: seq<T>, right: seq<T>)
    ensures Joins(whole, left, right) <==> whole == left + right
  {
    if Joins(whole, left, right) {
      forall k | 0 <= k < |whole| ensures whole[k] == (left + right)[k] {
        assert k < |left| ==> left[k] == whole[k];
        assert k >= |left| ==> right[k - |left|] == whole[k - |left| + |left|];
      }
    }
  }

  lemma JoinsChain<T>(whole: seq<T>, left: seq<T>, rest: seq<T>, middle: seq<T>, right: seq<T>)
    requires Joins(whole, left, rest) && Joins(rest, middle, right)
    ensures Joins(whole, left + middle, right)
  {
    JoinsIs(whole, left, rest);
    JoinsIs(rest, middle, right);
    Regroup(left, middle, right);
    JoinsIs(whole, left + middle, right);
  }

  lemma JoinsAdd<T>(whole: seq<T>, left: seq<T>, rest: seq<T>, middle: seq<T>, right: seq<T>)
    requires Joins(whole, left, rest) && rest == middle + right
    ensures Joins(whole, left + middle, right)
  {
    JoinsIs(rest, middle, right);
    JoinsChain(whole, left, rest, middle, right);
  }

  lemma MatchChar<T>(s: seq<T>, pattern: seq<T>, i: int, k: nat)
    ensures MatchesAt(s, pattern, i) && k < |pattern| ==> s[i + k] == pattern[k]
  {
  }

  lemma OneChar<T>(s: seq<T>, c: T, i: int)
    ensures MatchesAt(s, [c], i) <==> 0 <= i < |s| && s[i] == c
  {
    assert [c][0] == c;
  }

  /** The first place of one character at or after `from`, or -1. */
  function IndexOf(s: string, c: char, from: nat): (r: int)
    ensures r == -1 || (from <= r < |s| && s[r] == c)
    decreases |s| - from
  {
    if from >= |s| then -1 else if s[from] == c then from else IndexOf(s, c, from + 1)
  }

  lemma {:induction false} IndexOfIsFind(s: string, c: char, from: nat)
    ensures IndexOf(s, c, from) == Find(s, [c], from)
    decreases |s| - from
  {
    OneChar(s, c, from);
    OneChar(s, c, Find(s, [c], from));
    if from < |s| && s[from] != c {
      IndexOfIsFind(s, c, from + 1);
      OneChar(s, c, Find(s, [c], from + 1));
    }
  }

  lemma {:induction false} FirstIndex(s: string, c: char, from: nat, at: nat)
    requires from <= at < |s| && s[at] == c && forall k :: from <= k < at ==> s[k] != c
    ensures IndexOf(s, c, from) == at
    decreases at - from
  {
    if from < at {
      FirstIndex(s, c, from + 1, at);
    }
  }

  lemma {:induction false} NoIndex(s: string, c: char, from: nat)
    requires forall k :: from <= k < |s| ==> s[k] != c
    ensures IndexOf(s, c, from) == -1
    decreases |s| - from
  {
    if from < |s| {
      NoIndex(s, c, from + 1);
    }
  }

  lemma {:induction false} BeforeIndex(s: string, c: char, from: nat)
    ensures forall k :: from <= k < |s| && (IndexOf(s, c, from) == -1 || k < IndexOf(s, c, from)) ==> s[k] != c
    decreases |s| - from
  {
    if from < |s| && s[from] != c {
      BeforeIndex(s, c, from + 1);
    }
  }

  method FindChar(s: string, c: char, from: nat) returns (r: int)
    ensures r == IndexOf(s, c, from)
  {
    r := Find(s, [c], from);
    IndexOfIsFind(s, c, from);
  }

  // ---------- whitespace and words ----------

  predicate IsSpace(c: char) {
    c == ' ' || c == '\t' || c == '\n' || c == '\U{B}' || c == '\U{C}' || c == '\r'
  }

  predicate NoSpace(s: string) {
    forall i :: 0 <= i < |s| ==> !IsSpace(s[i])
  }

  predicate IsWord(s: string) {
    s != "" && NoSpace(s)
  }

  function SkipSpace(s: string): (r: string)
    ensures |r| <= |s|
    ensures r != "" ==> !IsSpace(r[0])
  {
    if s != "" && IsSpace(s[0]) then SkipSpace(s[1..]) else s
  }

  /** The longest prefix without whitespace. */
  function Word(s: string): (w: string)
    ensures |w| <= |s| && w == s[..|w|] && NoSpace(w)
    ensures |w| < |s| ==> IsSpace(s[|w|])
  {
    if s == "" || IsSpace(s[0]) then "" else [s[0]] + Word(s[1..])
  }

  /** `stream >> word`: the word, empty when there was none, and what is left of the stream. */
  function ExtractWord(s: string): (r: (string, string))
    ensures NoSpace(r.0)
    ensures |r.1| <= |s|
    ensures r.0 == "" ==> r.1 == ""
    ensures r.0 != "" ==> |r.1| < |s|
  {
    var t := SkipSpace(s);
    var w := Word(t);
    (w, t[|w|..])
  }

  function Tokens(s: string): (ts: seq<string>)
    ensures forall i :: 0 <= i < |ts| ==> IsWord(ts[i])
    decreases |s|
  {
    var (w, rest) := ExtractWord(s);
    if w == "" then [] else [w] + Tokens(rest)
  }

  function Spaced(words: seq<string>): string {
    if words == [] then "" else " " + words[0] + Spaced(words[1..])
  }

  lemma {:induction false} WordThen(w: string, rest: string)
    requires NoSpace(w) && (rest == "" || IsSpace(rest[0]))
    ensures Word(w + rest) == w
  {
    if w != "" {
      assert (w + rest)[1..] == w[1..] + rest;
      WordThen(w[1..], rest);
    } else {
      assert w + rest == rest;
    }
  }

  lemma ExtractThen(w: string, rest: string)
    requires IsWord(w) && (rest == "" || IsSpace(rest[0]))
    ensures ExtractWord(w + rest) == (w, rest)
    ensures ExtractWord(" " + w + rest) == (w, rest)
  {
    WordThen(w, rest);
    assert (" " + w + rest)[1..] == w + rest;
    assert (w + rest)[|w|..] == rest;
  }

  /** Words printed with a blank between them are read back as those words. */
  lemma {:induction false} TokensOfSpaced(words: seq<string>)
    requires forall i :: 0 <= i < |words| ==> IsWord(words[i])
    ensures Tokens(Spaced(words)) == words
  {
    if words != [] {
      TokensOfSpaced(words[1..]);
      ExtractThen(words[0], Spaced(words[1..]));
    }
  }

  lemma TokensOfPrinted(first: string, words: seq<string>)
    requires IsWord(first) && forall i :: 0 <= i < |words| ==> IsWord(words[i])
    ensures Tokens(first + Spaced(words)) == [first] + words
  {
    TokensOfSpaced(words);
    ExtractThen(first, Spaced(words));
  }

  // ---------- lines ----------

  /** `std::getline` on a stream that is not at its end: the line and what follows its newline. */
  function GetLine(s: string): (r: (string, string))
    ensures s != "" ==> |r.1| < |s|
  {
    var n := Find(s, "\n", 0);
    if n == -1 then (s, "") else (s[..n], s[n + 1..])
  }

  predicate NoNewline(s: string) {
    forall i :: 0 <= i < |s| ==> s[i] != '\n'
  }

  lemma GetLineOf(line: string, rest: string)
    requires NoNewline(line)
    ensures GetLine(line + "\n" + rest) == (line, rest)
    ensures GetLine(line) == (line, "")
  {
    var s := line + "\n" + rest;
    assert MatchesAt(s, "\n", |line|);
    forall i | 0 <= i < |line| ensures !MatchesAt(s, "\n", i) {
      OneChar(s, '\n', i);
    }
    FindIs(s, "\n", 0, |line|);
    assert s[..|line|] == line && s[|line| + 1..] == rest;
    var n := Find(line, "\n", 0);
    OneChar(line, '\n', n);
  }
}
