/** The PEM-like armour around an SSH signature (section 1 of OpenSSH PROTOCOL.sshsig). */
module Armour {
  import opened Text

  const BEGIN := "-----BEGIN SSH SIGNATURE-----"
  const END := "-----END SSH SIGNATURE-----"

  /** The text without its newlines. */
  function Unwrapped(s: string): string {
    if s == "" then ""
    else if s[0] == '\n' then Unwrapped(s[1..])
    else [s[0]] + Unwrapped(s[1..])
  }

  /** The text from `start` up to `end` without its newlines. */
  function Joined(s: string, start: nat, end: nat): string
    requires end <= |s|
    decreases end - start
  {
    if start >= end then ""
    else if s[start] == '\n' then Joined(s, start + 1, end)
    else [s[start]] + Joined(s, start + 1, end)
  }

  lemma {:induction false} JoinedIsUnwrapped(s: string, start: nat, end: nat)
    requires start <= end <= |s|
    ensures Joined(s, start, end) == Unwrapped(s[start..end])
    decreases end - start
  {
    if start < end {
      assert s[start..end][1..] == s[start + 1..end];
      JoinedIsUnwrapped(s, start + 1, end);
    }
  }

  /** Between the line after BEGIN and the first END all newlines are removed, which leaves
      nothing when END comes first; input without both markers and a newline after BEGIN is left
      as it is. */
  function Normalized(signature: string): string {
    var begin := Find(signature, BEGIN, 0);
    var end := Find(signature, END, 0);
    if begin == -1 || end == -1 then signature
    else
      var newline := Find(signature, "\n", begin);
      if newline == -1 then signature else Joined(signature, newline + 1, end)
  }

  method NormalizeSignatureInput(signature: string) returns (body: string)
    ensures body == Normalized(signature)
  {
    var begin := Find(signature, BEGIN, 0);
    if begin == -1 {
      return signature;
    }
    var end := Find(signature, END, 0);
    if end == -1 {
      return signature;
    }
    body := "";
    var linesStart := Find(signature, "\n", begin);
    if linesStart == -1 {
      return signature;
    }
    body := JoinLines(signature, linesStart + 1, end);
  }

  /** The lines from `start` up to `end`, joined. */
  method JoinLines(signature: string, start: nat, end: nat) returns (body: string)
    requires start <= |signature| && end <= |signature|
    ensures body == Joined(signature, start, end)
  {
    body := "";
    var pos := start;
    while pos < end
      invariant start <= pos <= |signature|
      invariant body + Joined(signature, pos, end) == Joined(signature, start, end)
    {
      var lineEnd := Find(signature, "\n", pos);
      var chunkEnd := if lineEnd == -1 || lineEnd > end then end else lineEnd;
      JoinLine(signature, pos, chunkEnd, lineEnd, end);
      ghost var before, rest := body, Joined(signature, chunkEnd, end);
      var line := signature[pos..chunkEnd];
      body := body + line;
      Regroup(before, line, rest);
      if lineEnd == -1 || lineEnd >= end {
        break;
      }
      pos := lineEnd + 1;
    }
  }

  /** A line contributes itself, and its newline nothing. */
  lemma JoinLine(s: string, pos: nat, chunkEnd: nat, lineEnd: int, end: nat)
    requires pos < end <= |s| && lineEnd == Find(s, "\n", pos)
    requires chunkEnd == if lineEnd == -1 || lineEnd > end then end else lineEnd
    ensures pos <= chunkEnd <= end
    ensures Joined(s, pos, end) == s[pos..chunkEnd] + Joined(s, chunkEnd, end)
    ensures lineEnd != -1 && lineEnd < end ==> Joined(s, chunkEnd, end) == Joined(s, lineEnd + 1, end)
  {
    LineHasNoNewline(s, pos, chunkEnd, lineEnd);
    JoinedPlain(s, pos, chunkEnd, end);
    OneChar(s, '\n', lineEnd);
  }

  lemma {:induction false} JoinedPlain(s: string, pos: nat, until: nat, end: nat)
    requires pos <= until <= end <= |s| && NoNewline(s[pos..until])
    ensures Joined(s, pos, end) == s[pos..until] + Joined(s, until, end)
    decreases until - pos
  {
    if pos < until {
      assert s[pos..until][0] == s[pos];
      assert s[pos + 1..until] == s[pos..until][1..];
      JoinedPlain(s, pos + 1, until, end);
      assert s[pos..until] == [s[pos]] + s[pos + 1..until];
    }
  }

  lemma LineHasNoNewline(s: string, from: nat, until: nat, newline: int)
    requires from <= until <= |s| && newline == Find(s, "\n", from)
    requires newline == -1 || until <= newline
    ensures NoNewline(s[from..until])
  {
    forall i | from <= i < until ensures s[i] != '\n' {
      OneChar(s, '\n', i);
    }
  }

  lemma {:induction false} UnwrappedConcat(s: string, t: string)
    ensures Unwrapped(s + t) == Unwrapped(s) + Unwrapped(t)
  {
    if s == "" {
      assert s + t == t;
    } else {
      assert (s + t)[1..] == s[1..] + t;
      UnwrappedConcat(s[1..], t);
    }
  }

  lemma {:induction false} UnwrappedPlain(s: string)
    requires NoNewline(s)
    ensures Unwrapped(s) == s
  {
    if s != "" {
      UnwrappedPlain(s[1..]);
    }
  }

  // ---------- armouring ----------

  /** Base64 text in lines of `width` characters, each ended by a newline. */
  function Wrapped(body: string, width: nat): string
    requires width >= 1
    decreases |body|
  {
    if |body| <= width then body + "\n" else body[..width] + "\n" + Wrapped(body[width..], width)
  }

  function Armoured(body: string, width: nat, after: string): string
    requires width >= 1
  {
    BEGIN + "\n" + Wrapped(body, width) + END + after
  }

  predicate IsBase64(s: string) {
    forall i :: 0 <= i < |s| ==>
      'A' <= s[i] <= 'Z' || 'a' <= s[i] <= 'z' || '0' <= s[i] <= '9' || s[i] == '+' || s[i] == '/' || s[i] == '='
  }

  lemma UnwrappedLine(line: string)
    requires IsBase64(line)
    ensures Unwrapped(line + "\n") == line
  {
    UnwrappedPlain(line);
    UnwrappedConcat(line, "\n");
    assert Unwrapped("\n") == "";
    hide Unwrapped;
    assert line + "" == line;
  }

  lemma {:induction false} WrappedShape(body: string, width: nat)
    requires width >= 1 && IsBase64(body)
    ensures Unwrapped(Wrapped(body, width)) == body
    ensures '-' !in Wrapped(body, width)
    decreases |body|
  {
    if |body| <= width {
      UnwrappedLine(body);
    } else {
      var line, rest := body[..width], body[width..];
      WrappedShape(rest, width);
      UnwrappedLine(line);
      assert Wrapped(body, width) == line + "\n" + Wrapped(rest, width);
      hide Unwrapped, Wrapped;
      UnwrappedConcat(line + "\n", Wrapped(rest, width));
      assert body == line + rest;
    }
  }

  lemma BeginShape()
    ensures |BEGIN| == 29 && BEGIN[5] == 'B'
    ensures forall k :: 0 <= k < 29 ==> (BEGIN[k] == '-' <==> k < 5 || k >= 24) && BEGIN[k] != '\n'
  {
  }

  lemma EndShape()
    ensures |END| == 27 && END[0] == END[1] == END[2] == END[3] == END[4] == '-' && END[5] == 'E'
  {
  }

  /** Five dashes and an 'E' occur neither in the header line nor in a body without dashes. */
  lemma NoEarlierEnd(s: string, end: string, i: nat, n: nat)
    requires |end| == 27 && end[0] == end[1] == end[2] == end[3] == end[4] == '-' && end[5] == 'E'
    requires 30 <= n <= |s| && i < n && s[5] == 'B' && s[29] == '\n'
    requires forall k :: 0 <= k < 29 ==> (s[k] == '-' <==> k < 5 || k >= 24)
    requires forall k :: 30 <= k < n ==> s[k] != '-'
    ensures !MatchesAt(s, end, i)
  {
    MatchChar(s, end, i, 0);
    MatchChar(s, end, i, 4);
    MatchChar(s, end, i, 5);
    if 24 <= i < 29 {
      MatchChar(s, end, i, 29 - i);
    }
  }

  /** The first END is the one that closes the armour. */
  lemma EndFound(text: string, after: string)
    requires '-' !in text
    ensures Find(BEGIN + "\n" + text + END + after, END, 0) == 30 + |text|
  {
    BeginShape();
    EndShape();
    var begin, end := BEGIN, END;
    EndFoundIn(begin, text, end, after);
  }

  lemma EndFoundIn(begin: string, text: string, end: string, after: string)
    requires '-' !in text
    requires |begin| == 29 && begin[5] == 'B' && forall k :: 0 <= k < 29 ==> (begin[k] == '-' <==> k < 5 || k >= 24)
    requires |end| == 27 && end[0] == end[1] == end[2] == end[3] == end[4] == '-' && end[5] == 'E'
    ensures Find(begin + "\n" + text + end + after, end, 0) == 30 + |text|
  {
    var s := begin + "\n" + text + end + after;
    var n := 30 + |text|;
    assert s[n..n + |end|] == end;
    assert forall k :: 0 <= k < 29 ==> s[k] == begin[k];
    assert forall k :: 30 <= k < n ==> s[k] == text[k - 30] && s[k] in text;
    forall i | 0 <= i < n ensures !MatchesAt(s, end, i) {
      NoEarlierEnd(s, end, i, n);
    }
    FindIs(s, end, 0, n);
  }

  /** The armour begins at once, and its first line is the mark. */
  lemma BeginFound(s: string)
    requires |s| > 29 && s[..29] == BEGIN && s[29] == '\n'
    ensures Find(s, BEGIN, 0) == 0 && Find(s, "\n", 0) == 29
  {
    BeginShape();
    hide Find;
    assert forall k :: 0 <= k < 29 ==> s[k] == s[..29][k];
    assert MatchesAt(s, BEGIN, 0);
    FindIs(s, BEGIN, 0, 0);
    forall i | 0 <= i < 29 ensures !MatchesAt(s, "\n", i) {
      OneChar(s, '\n', i);
      assert s[i] == BEGIN[i];
    }
    OneChar(s, '\n', 29);
    FindIs(s, "\n", 0, 29);
  }

  /** Where the parts of an armoured text stand. */
  lemma ArmourShape(text: string, after: string)
    ensures var s := BEGIN + "\n" + text + END + after;
            |s| > 30 + |text| && s[..29] == BEGIN && s[29] == '\n' && s[30..30 + |text|] == text
  {
    BeginShape();
    EndShape();
  }

  /** Armouring any base64 body at any width, whatever follows the armour, and normalising gives
      the body back. */
  lemma NormalizeArmoured(body: string, width: nat, after: string)
    requires width >= 1 && IsBase64(body)
    ensures Normalized(Armoured(body, width, after)) == body
  {
    hide Wrapped, Unwrapped, Find, Joined;
    WrappedShape(body, width);
    var text := Wrapped(body, width);
    var s := Armoured(body, width, after);
    ArmourShape(text, after);
    BeginFound(s);
    EndFound(text, after);
    JoinedIsUnwrapped(s, 30, 30 + |text|);
  }

  /** With both marks, whatever their order and wherever they stand, the text from the line after the first
      opening mark up to the first closing one comes back without its newlines; without, all comes back. */
  lemma BetweenMarks(s: string, begin: nat, newline: nat, end: nat)
    ensures !Contains(s, "-----BEGIN SSH SIGNATURE-----") || !Contains(s, "-----END SSH SIGNATURE-----") ==>
              Normalized(s) == s
    ensures IsFirst(s, "-----BEGIN SSH SIGNATURE-----", 0, begin) && IsFirst(s, "-----END SSH SIGNATURE-----", 0, end)
            && begin <= newline && IsFirst(s, "\n", begin, newline) ==>
              Normalized(s) == if newline < end then Unwrapped(s[newline + 1..end]) else ""
    ensures IsFirst(s, "-----BEGIN SSH SIGNATURE-----", 0, begin) && begin <= |s| && '\n' !in s[begin..] ==>
              Normalized(s) == s
  {
    hide Find, Joined, Unwrapped, Contains, IsFirst;
    FindContains(s, BEGIN);
    FindContains(s, END);
    MarkFound(s, BEGIN, 0, begin);
    MarkFound(s, END, 0, end);
    MarkFound(s, "\n", begin, newline);
    NoLineAfter(s, begin);
    if newline < end <= |s| {
      JoinedIsUnwrapped(s, newline + 1, end);
    }
    NothingJoined(s, newline + 1, end);
  }

  lemma NothingJoined(s: string, start: nat, end: nat)
    ensures end <= start && end <= |s| ==> Joined(s, start, end) == ""
  {
  }

  lemma MarkFound(s: string, mark: string, from: nat, at: nat)
    requires mark != ""
    ensures from <= at && IsFirst(s, mark, from, at) ==> Find(s, mark, from) == at && at + |mark| <= |s|
  {
    if from <= at && IsFirst(s, mark, from, at) {
      FindIs(s, mark, from, at);
    }
  }

  lemma NoLineAfter(s: string, begin: nat)
    ensures begin <= |s| && '\n' !in s[begin..] ==> Find(s, "\n", begin) == -1
  {
    var f := Find(s, "\n", begin);
    if begin <= |s| && f != -1 {
      OneChar(s, '\n', f);
      assert s[begin..][f - begin] == '\n';
    }
  }
}
