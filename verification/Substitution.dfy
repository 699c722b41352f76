/** Environment substitution in configuration values: `${NAME}` and `${NAME:default}` first,
    then `$NAME`, each by one loop that rewrites the text in place. */
module Substitution {
  import opened Text

  type Environment = map<string, string>

  // ---------- pass one ----------

  /** What stands between the braces: the name up to the first colon, the default after it. */
  function NameOf(reference: string): string {
    var colon := IndexOf(reference, ':', 0);
    if colon == -1 then reference else reference[..colon]
  }

  function DefaultOf(reference: string): string {
    var colon := IndexOf(reference, ':', 0);
    if colon == -1 then "" else reference[colon + 1..]
  }

  /** What a reference stands for. An unset name without a default (or with an empty one) stands
      for nothing. */
  function ValueOf(reference: string, env: Environment): Option<string> {
    if NameOf(reference) in env then Some(env[NameOf(reference)])
    else if DefaultOf(reference) != "" then Some(DefaultOf(reference))
    else None
  }

  /** A meaning for references. */
  type Meaning = string -> Option<string>

  function BraceMeaning(env: Environment): Meaning {
    reference => ValueOf(reference, env)
  }

  /** A reference as it is written, and what it becomes: without a value it stays. */
  function Braced(inside: string): string {
    "${" + inside + "}"
  }

  function BracedValue(inside: string, value: Option<string>): string {
    if value.Some? then value.value else Braced(inside)
  }

  /** The expansion of a text from `at` on, left to right: what a reference is replaced by is not
      looked at again, and an opening that is never closed is text. */
  function BracesRest(s: string, at: nat, f: Meaning): string
    requires at <= |s|
    decreases |s| - at
  {
    if at == |s| then ""
    else if at + 1 < |s| && s[at] == '$' && s[at + 1] == '{' && IndexOf(s, '}', at + 2) != -1 then
      var close := IndexOf(s, '}', at + 2);
      BracedValue(s[at + 2..close], f(s[at + 2..close])) + BracesRest(s, close + 1, f)
    else [s[at]] + BracesRest(s, at + 1, f)
  }

  function ExpandBraces(s: string, env: Environment): string {
    BracesRest(s, 0, BraceMeaning(env))
  }

  // ---------- pass two ----------

  predicate IsNameChar(c: char) {
    'a' <= c <= 'z' || 'A' <= c <= 'Z' || '0' <= c <= '9' || c == '_'
  }

  /** Where the longest name that starts at `i` ends. */
  function NameEnd(s: string, i: nat): (end: nat)
    requires i <= |s|
    ensures i <= end <= |s|
    decreases |s| - i
  {
    if i < |s| && IsNameChar(s[i]) then NameEnd(s, i + 1) else i
  }

  function NameValue(name: string, env: Environment): Option<string> {
    if name in env && name != "" then Some(env[name]) else None
  }

  function NameMeaning(env: Environment): Meaning {
    name => NameValue(name, env)
  }

  function NamedValue(name: string, value: Option<string>): string {
    if value.Some? then value.value else "$" + name
  }

  /** Every `$` begins a reference to the longest name after it, but "${" is text. */
  function NamesRest(s: string, at: nat, f: Meaning): string
    requires at <= |s|
    decreases |s| - at
  {
    if at == |s| then ""
    else if at + 1 == |s| || s[at] != '$' || s[at + 1] == '{' then [s[at]] + NamesRest(s, at + 1, f)
    else
      var end := NameEnd(s, at + 1);
      NamedValue(s[at + 1..end], f(s[at + 1..end])) + NamesRest(s, end, f)
  }

  function ExpandNames(s: string, env: Environment): string {
    NamesRest(s, 0, NameMeaning(env))
  }

  // ---------- the program ----------

  method SubstituteEnvironmentVariables(value: string, env: Environment) returns (result: string)
    ensures result == ExpandNames(ExpandBraces(value, env), env)
  {
    result := SubstituteBraces(value, env);
    result := SubstituteNames(result, env);
  }

  /** One turn of either loop, seen from the text it was given: what the turn adds to the part that
      is done, where the rest begins, and whether to go on. */
  datatype Step = Step(add: string, next: nat, more: bool)

  /** The same turn, on the loop's text. */
  datatype Turn = Turn(text: string, start: nat, more: bool)

  /** While a loop runs, its text is the part that is done and the rest of what it was given. */
  ghost predicate Split(text: string, start: nat, value: string, done: string, at: nat) {
    start == |done| && Alike(value, at, text, start) && Begins(done, text)
  }

  predicate Begins(s: string, t: string) {
    |s| <= |t| && forall k {:trigger s[k]} :: 0 <= k < |s| ==> s[k] == t[k]
  }

  /** `s` from `i` on and `t` from `j` on are the same. */
  predicate Alike(s: string, i: nat, t: string, j: nat) {
    i <= |s| && j <= |t| && |s| - i == |t| - j && forall k {:trigger s[k]} :: i <= k < |s| ==> s[k] == t[k - i + j]
  }

  ghost predicate Stepped(turn: Turn, value: string, done: string, step: Step) {
    && turn.more == step.more
    && (step.more ==> Split(turn.text, turn.start, value, done + step.add, step.next))
    && (!step.more ==> Joins(turn.text, done, step.add))
  }

  method SubstituteBraces(value: string, env: Environment) returns (result: string)
    ensures result == ExpandBraces(value, env)
  {
    ghost var f := BraceMeaning(env);
    ghost var done, at := "", 0;
    result := value;
    var start, more := 0, true;
    while more
      invariant more ==>
                  && Split(result, start, value, done, at)
                  && Joins(ExpandBraces(value, env), done, BracesRest(value, at, f))
      invariant !more ==> result == ExpandBraces(value, env)
      decreases more, |value| - at
    {
      ghost var step := BracesStep(value, at, f);
      BracesStepKeeps(value, at, f);
      BracesTurnIsStep(result, start, value, done, at, f);
      if step.more {
        JoinsChain(ExpandBraces(value, env), done, BracesRest(value, at, f), step.add, BracesRest(value, step.next, f));
      }
      result, start, more := ReplaceBraces(result, start, env);
      if !more {
        JoinsIs(result, done, step.add);
        JoinsIs(ExpandBraces(value, env), done, step.add);
      }
      done, at := done + step.add, step.next;
    }
  }

  /** The first "${" at or after `from`, or -1. */
  function OpenFrom(s: string, from: nat): (r: int)
    ensures r == -1 || (from <= r && r + 2 <= |s| && s[r] == '$' && s[r + 1] == '{')
    decreases |s| - from
  {
    if from + 1 >= |s| then -1 else if s[from] == '$' && s[from + 1] == '{' then from else OpenFrom(s, from + 1)
  }

  lemma OpensAt(s: string, open: int)
    ensures MatchesAt(s, "${", open) <==> 0 <= open && open + 2 <= |s| && s[open] == '$' && s[open + 1] == '{'
  {
    var pattern := "${";
    assert pattern[0] == '$' && pattern[1] == '{';
  }

  lemma {:induction false} OpenFromIsFind(s: string, from: nat)
    ensures OpenFrom(s, from) == Find(s, "${", from)
    decreases |s| - from
  {
    OpensAt(s, from);
    OpensAt(s, Find(s, "${", from));
    if from + 1 < |s| && OpenFrom(s, from) != from {
      OpenFromIsFind(s, from + 1);
      OpensAt(s, Find(s, "${", from + 1));
    }
  }

  function BracesStep(s: string, at: nat, f: Meaning): (step: Step)
    requires at <= |s|
    ensures at <= step.next <= |s|
    ensures step.more ==> at < step.next
  {
    var open := OpenFrom(s, at);
    if open == -1 || IndexOf(s, '}', open + 2) == -1 then Step(s[at..], |s|, false)
    else ReferenceStep(s, at, open, IndexOf(s, '}', open + 2), f(s[open + 2..IndexOf(s, '}', open + 2)]))
  }

  function ReferenceStep(s: string, at: nat, open: nat, close: nat, value: Option<string>): Step
    requires at <= open && open + 2 <= close < |s|
  {
    Step(if value.Some? then s[at..open] + value.value else s[at..close + 1], close + 1, true)
  }

  function BracesTurn(text: string, from: nat, f: Meaning): Turn {
    var open := OpenFrom(text, from);
    if open == -1 then Turn(text, from, false)
    else if IndexOf(text, '}', open + 2) == -1 then Turn(text, open, false)
    else ReferenceTurn(text, open, IndexOf(text, '}', open + 2), f(text[open + 2..IndexOf(text, '}', open + 2)]))
  }

  function ReferenceTurn(text: string, open: nat, close: nat, value: Option<string>): Turn
    requires open + 2 <= close < |text|
  {
    if value.Some? then Turn(text[..open] + value.value + text[close + 1..], open + |value.value|, true)
    else Turn(text, close + 1, true)
  }

  method ReplaceBraces(text: string, from: nat, env: Environment) returns (result: string, start: nat, more: bool)
    ensures Turn(result, start, more) == BracesTurn(text, from, BraceMeaning(env))
  {
    hide Find, IndexOf, OpenFrom, ValueOf;
    var open := Find(text, "${", from);
    OpenFromIsFind(text, from);
    if open == -1 {
      return text, from, false;
    }
    var end := FindChar(text, '}', open + 2);
    if end == -1 {
      return text, open, false;
    }
    var replacement := Lookup(text[open + 2..end], env);
    if replacement.None? {
      return text, end + 1, true;
    }
    result := text[..open] + replacement.value + text[end + 1..];
    start := open + |replacement.value|;
    more := true;
  }

  method Lookup(reference: string, env: Environment) returns (value: Option<string>)
    ensures value == ValueOf(reference, env)
  {
    hide IndexOf;
    var name, default := reference, "";
    var colon := FindChar(reference, ':', 0);
    if colon != -1 {
      name, default := reference[..colon], reference[colon + 1..];
    }
    if name in env {
      value := Some(env[name]);
    } else if default != "" {
      value := Some(default);
    } else {
      value := None;
    }
  }

  // What the rest of the given text shows of the loop's text.

  lemma {:induction false} SameOpen(s: string, i: nat, t: string, j: nat)
    requires Alike(s, i, t, j)
    ensures OpenFrom(t, j) == if OpenFrom(s, i) == -1 then -1 else OpenFrom(s, i) - i + j
    decreases |s| - i
  {
    if i + 1 < |s| && OpenFrom(s, i) != i {
      SameOpen(s, i + 1, t, j + 1);
    }
  }

  lemma {:induction false} SameIndexOf(s: string, i: nat, t: string, j: nat, c: char)
    requires Alike(s, i, t, j)
    ensures IndexOf(t, c, j) == if IndexOf(s, c, i) == -1 then -1 else IndexOf(s, c, i) - i + j
    decreases |s| - i
  {
    if i < |s| && s[i] != c {
      SameIndexOf(s, i + 1, t, j + 1, c);
    }
  }

  lemma OpenInRest(text: string, value: string, done: string, at: nat)
    requires Split(text, |done|, value, done, at)
    ensures OpenFrom(text, |done|) == if OpenFrom(value, at) == -1 then -1 else OpenFrom(value, at) - at + |done|
  {
    SameOpen(value, at, text, |done|);
  }

  lemma IndexInRest(text: string, value: string, done: string, at: nat, c: char, n: nat)
    requires Split(text, |done|, value, done, at) && at + n <= |value|
    ensures IndexOf(text, c, |done| + n)
            == if IndexOf(value, c, at + n) == -1 then -1 else IndexOf(value, c, at + n) - at + |done|
  {
    SameIndexOf(value, at + n, text, |done| + n, c);
  }

  lemma SameMeaning(text: string, value: string, done: string, at: nat, from: nat, until: nat, f: Meaning)
    requires Split(text, |done|, value, done, at) && at <= from <= until <= |value|
    ensures f(text[from - at + |done|..until - at + |done|]) == f(value[from..until])
  {
    assert text[from - at + |done|..until - at + |done|] == value[from..until];
  }

  lemma KeptInRest(text: string, value: string, done: string, at: nat, next: nat)
    requires Split(text, |done|, value, done, at) && at <= next <= |value|
    ensures Split(text, next - at + |done|, value, done + value[at..next], next)
  {
  }

  lemma ReplacedInRest(text: string, value: string, done: string, at: nat, from: nat, until: nat, piece: string)
    requires Split(text, |done|, value, done, at) && at <= from <= until <= |value|
    ensures Split(text[..from - at + |done|] + piece + text[until - at + |done|..], from - at + |done| + |piece|, value,
                  done + (value[at..from] + piece), until)
  {
    assert text[..from - at + |done|] == done + value[at..from];
    Regroup(done, value[at..from], piece);
  }

  lemma BracesTurnIsStep(text: string, from: nat, value: string, done: string, at: nat, f: Meaning)
    requires Split(text, from, value, done, at)
    ensures Stepped(BracesTurn(text, from, f), value, done, BracesStep(value, at, f))
  {
    hide Stepped, OpenFrom, IndexOf, ReferenceTurn, ReferenceStep;
    StoppedIsStep(text, value, done, at, from);
    OpenInRest(text, value, done, at);
    var open := OpenFrom(value, at);
    if open != -1 {
      IndexInRest(text, value, done, at, '}', open - at + 2);
      StoppedIsStep(text, value, done, at, open - at + from);
      var close := IndexOf(value, '}', open + 2);
      if close != -1 {
        SameMeaning(text, value, done, at, open + 2, close, f);
        ReferenceTurnIsStep(text, value, done, at, open, close, f(value[open + 2..close]));
      }
    }
  }

  lemma StoppedIsStep(text: string, value: string, done: string, at: nat, start: nat)
    requires Split(text, |done|, value, done, at)
    ensures Stepped(Turn(text, start, false), value, done, Step(value[at..], |value|, false))
  {
  }

  lemma ReferenceTurnIsStep(text: string, value: string, done: string, at: nat, open: nat, close: nat,
                            found: Option<string>)
    requires Split(text, |done|, value, done, at) && at <= open && open + 2 <= close < |value|
    ensures Stepped(ReferenceTurn(text, open - at + |done|, close - at + |done|, found), value, done,
                    ReferenceStep(value, at, open, close, found))
  {
    hide Split;
    if found.Some? {
      ReplacedInRest(text, value, done, at, open, close + 1, found.value);
    } else {
      KeptInRest(text, value, done, at, close + 1);
    }
  }

  // What a turn adds is the expansion of what it passed over.

  lemma BracesStepKeeps(s: string, at: nat, f: Meaning)
    requires at <= |s|
    ensures var step := BracesStep(s, at, f);
            if step.more then Joins(BracesRest(s, at, f), step.add, BracesRest(s, step.next, f))
            else BracesRest(s, at, f) == step.add
  {
    hide Joins, BracesRest, IndexOf, OpenFrom;
    var open := OpenFrom(s, at);
    if open == -1 || IndexOf(s, '}', open + 2) == -1 {
      BracesEnded(s, at, f);
    } else {
      BracesPlain(s, at, f);
      ReferenceStepKeeps(s, at, open, IndexOf(s, '}', open + 2), f);
    }
  }

  lemma ReferenceStepKeeps(s: string, at: nat, open: nat, close: nat, f: Meaning)
    requires at <= open && open + 2 <= |s| && s[open] == '$' && s[open + 1] == '{' && close == IndexOf(s, '}', open + 2)
    requires Joins(BracesRest(s, at, f), s[at..open], BracesRest(s, open, f))
    ensures close < |s|
    ensures var add := ReferenceStep(s, at, open, close, f(s[open + 2..close])).add;
            Joins(BracesRest(s, at, f), add, BracesRest(s, close + 1, f))
  {
    var inside := s[open + 2..close];
    var shown := BracedValue(inside, f(inside));
    ReferenceAdds(s, at, open, close, f(inside));
    hide Joins, BracesRest, BracedValue, ReferenceStep, IndexOf;
    ReferenceUnfolds(s, open, close, inside, f);
    JoinsAdd(BracesRest(s, at, f), s[at..open], BracesRest(s, open, f), shown, BracesRest(s, close + 1, f));
  }

  lemma ReferenceAdds(s: string, at: nat, open: nat, close: nat, value: Option<string>)
    requires at <= open && open + 2 <= close < |s| && s[open] == '$' && s[open + 1] == '{' && s[close] == '}'
    ensures ReferenceStep(s, at, open, close, value).add == s[at..open] + BracedValue(s[open + 2..close], value)
  {
    Written(s, at, open, close);
  }

  lemma Written(s: string, at: nat, open: nat, close: nat)
    requires at <= open && open + 2 <= close < |s| && s[open] == '$' && s[open + 1] == '{' && s[close] == '}'
    ensures s[at..open] + Braced(s[open + 2..close]) == s[at..close + 1]
  {
  }

  /** Characters that open nothing are copied. */
  lemma {:induction false} BracesPlain(s: string, at: nat, f: Meaning)
    requires at <= |s| && OpenFrom(s, at) != -1
    ensures Joins(BracesRest(s, at, f), s[at..OpenFrom(s, at)], BracesRest(s, OpenFrom(s, at), f))
    decreases |s| - at
  {
    var open := OpenFrom(s, at);
    if open != at {
      BracesPlain(s, at + 1, f);
      hide Joins;
      assert BracesRest(s, at, f) == [s[at]] + BracesRest(s, at + 1, f);
      hide BracesRest;
      JoinsIs(BracesRest(s, at, f), [s[at]], BracesRest(s, at + 1, f));
      JoinsChain(BracesRest(s, at, f), [s[at]], BracesRest(s, at + 1, f), s[at + 1..open], BracesRest(s, open, f));
      SliceTail(s, at, open);
    }
  }

  /** So is everything, when nothing opens any more or what opens next is not closed. */
  lemma {:induction false} BracesEnded(s: string, at: nat, f: Meaning)
    requires at <= |s| && (OpenFrom(s, at) == -1 || IndexOf(s, '}', OpenFrom(s, at) + 2) == -1)
    ensures BracesRest(s, at, f) == s[at..]
    decreases |s| - at
  {
    if at < |s| {
      if OpenFrom(s, at) == at {
        NoneLater(s, at + 2, '}');
      }
      BracesEnded(s, at + 1, f);
      assert BracesRest(s, at, f) == [s[at]] + BracesRest(s, at + 1, f);
      hide BracesRest, OpenFrom, IndexOf;
      SliceTail(s, at, |s|);
    }
  }

  lemma {:induction false} NoneLater(s: string, i: nat, c: char)
    requires IndexOf(s, c, i) == -1
    ensures forall j :: i <= j ==> IndexOf(s, c, j) == -1
    decreases |s| - i
  {
    if i < |s| {
      NoneLater(s, i + 1, c);
    }
  }

  method SubstituteNames(value: string, env: Environment) returns (result: string)
    ensures result == ExpandNames(value, env)
  {
    ghost var f := NameMeaning(env);
    ghost var done, at := "", 0;
    result := value;
    var start, more := 0, true;
    while more
      invariant more ==>
                  && Split(result, start, value, done, at)
                  && Joins(ExpandNames(value, env), done, NamesRest(value, at, f))
      invariant !more ==> result == ExpandNames(value, env)
      decreases more, |value| - at
    {
      ghost var step := NamesStep(value, at, f);
      NamesStepKeeps(value, at, f);
      NamesTurnIsStep(result, start, value, done, at, f);
      if step.more {
        JoinsChain(ExpandNames(value, env), done, NamesRest(value, at, f), step.add, NamesRest(value, step.next, f));
      }
      result, start, more := ReplaceNext(result, start, env);
      if !more {
        JoinsIs(result, done, step.add);
        JoinsIs(ExpandNames(value, env), done, step.add);
      }
      done, at := done + step.add, step.next;
    }
  }

  function NamesStep(s: string, at: nat, f: Meaning): (step: Step)
    requires at <= |s|
    ensures at <= step.next <= |s|
    ensures step.more ==> at < step.next
  {
    var dollar := IndexOf(s, '$', at);
    if dollar == -1 || dollar + 1 >= |s| then Step(s[at..], |s|, false)
    else if s[dollar + 1] == '{' then Step(s[at..dollar + 2], dollar + 2, true)
    else NameStep(s, at, dollar, NameEnd(s, dollar + 1), f(s[dollar + 1..NameEnd(s, dollar + 1)]))
  }

  function NameStep(s: string, at: nat, dollar: nat, end: nat, value: Option<string>): Step
    requires at <= dollar < end <= |s|
  {
    Step(if value.Some? then s[at..dollar] + value.value else s[at..end], end, true)
  }

  function NamesTurn(text: string, from: nat, f: Meaning): Turn {
    var dollar := IndexOf(text, '$', from);
    if dollar == -1 then Turn(text, from, false)
    else if dollar + 1 >= |text| then Turn(text, dollar, false)
    else if text[dollar + 1] == '{' then Turn(text, dollar + 2, true)
    else NameTurn(text, dollar, NameEnd(text, dollar + 1), f(text[dollar + 1..NameEnd(text, dollar + 1)]))
  }

  function NameTurn(text: string, dollar: nat, end: nat, value: Option<string>): Turn
    requires dollar < end <= |text|
  {
    if value.Some? then Turn(text[..dollar] + value.value + text[end..], dollar + |value.value|, true)
    else Turn(text, end, true)
  }

  method ReplaceNext(text: string, from: nat, env: Environment) returns (result: string, start: nat, more: bool)
    ensures Turn(result, start, more) == NamesTurn(text, from, NameMeaning(env))
  {
    var dollar := FindChar(text, '$', from);
    if dollar == -1 {
      return text, from, false;
    }
    if dollar + 1 >= |text| {
      return text, dollar, false;
    }
    if text[dollar + 1] == '{' {
      return text, dollar + 2, true;
    }
    result, start := ReplaceName(text, dollar, env);
    more := true;
  }

  method ReplaceName(text: string, dollar: nat, env: Environment) returns (result: string, start: nat)
    requires dollar < |text|
    ensures var end := NameEnd(text, dollar + 1);
            Turn(result, start, true) == NameTurn(text, dollar, end, NameValue(text[dollar + 1..end], env))
  {
    var varStart := dollar + 1;
    var varEnd := varStart;
    while varEnd < |text| && IsNameChar(text[varEnd])
      invariant varStart <= varEnd <= |text|
      invariant NameEnd(text, varEnd) == NameEnd(text, varStart)
    {
      varEnd := varEnd + 1;
    }
    result, start := text, varEnd;
    if varEnd > varStart {
      var name := text[varStart..varEnd];
      if name in env {
        result := text[..dollar] + env[name] + text[varEnd..];
        start := dollar + |env[name]|;
      }
    }
  }

  lemma NamesTurnIsStep(text: string, from: nat, value: string, done: string, at: nat, f: Meaning)
    requires Split(text, from, value, done, at)
    ensures Stepped(NamesTurn(text, from, f), value, done, NamesStep(value, at, f))
  {
    hide Stepped, IndexOf, NameEnd, NameTurn, NameStep, Begins;
    StoppedIsStep(text, value, done, at, from);
    IndexInRest(text, value, done, at, '$', 0);
    var dollar := IndexOf(value, '$', at);
    if dollar != -1 {
      StoppedIsStep(text, value, done, at, dollar - at + from);
      if dollar + 1 < |value| {
        if value[dollar + 1] == '{' {
          SteppedOver(text, value, done, at, dollar + 2);
        } else {
          NameInRest(text, value, done, at, dollar + 1);
          SameMeaning(text, value, done, at, dollar + 1, NameEnd(value, dollar + 1), f);
          NameTurnIsStep(text, value, done, at, dollar, NameEnd(value, dollar + 1),
            f(value[dollar + 1..NameEnd(value, dollar + 1)]));
        }
      }
    }
  }

  lemma SteppedOver(text: string, value: string, done: string, at: nat, next: nat)
    requires Split(text, |done|, value, done, at) && at <= next <= |value|
    ensures Stepped(Turn(text, next - at + |done|, true), value, done, Step(value[at..next], next, true))
  {
    hide Split;
    KeptInRest(text, value, done, at, next);
  }

  lemma NameTurnIsStep(text: string, value: string, done: string, at: nat, dollar: nat, end: nat, found: Option<string>)
    requires Split(text, |done|, value, done, at) && at <= dollar < end <= |value|
    ensures Stepped(NameTurn(text, dollar - at + |done|, end - at + |done|, found), value, done,
            NameStep(value, at, dollar, end, found))
  {
    hide Split;
    if found.Some? {
      ReplacedInRest(text, value, done, at, dollar, end, found.value);
    } else {
      KeptInRest(text, value, done, at, end);
    }
  }

  lemma NameInRest(text: string, value: string, done: string, at: nat, i: nat)
    requires Split(text, |done|, value, done, at) && at <= i <= |value|
    ensures i - at + |done| <= |text|
    ensures NameEnd(text, i - at + |done|) == NameEnd(value, i) - at + |done|
  {
    SameNameEnd(value, i, text, i - at + |done|);
  }

  lemma {:induction false} SameNameEnd(s: string, i: nat, t: string, j: nat)
    requires Alike(s, i, t, j)
    ensures NameEnd(t, j) == NameEnd(s, i) - i + j
    decreases |s| - i
  {
    if i < |s| && IsNameChar(s[i]) {
      SameNameEnd(s, i + 1, t, j + 1);
    }
  }

  lemma NamesStepKeeps(s: string, at: nat, f: Meaning)
    requires at <= |s|
    ensures var step := NamesStep(s, at, f);
            if step.more then Joins(NamesRest(s, at, f), step.add, NamesRest(s, step.next, f))
            else NamesRest(s, at, f) == step.add
  {
    hide Joins, NamesRest, IndexOf, NameEnd;
    var dollar := IndexOf(s, '$', at);
    if dollar == -1 || dollar + 1 >= |s| {
      NamesEnded(s, at, f);
    } else {
      NamesPlain(s, at, f);
      if s[dollar + 1] == '{' {
        NamesCopied(s, at, dollar, f);
        NamesCopied(s, at, dollar + 1, f);
      } else {
        NameStepKeeps(s, at, dollar, NameEnd(s, dollar + 1), f);
      }
    }
  }

  lemma NameStepKeeps(s: string, at: nat, dollar: nat, end: nat, f: Meaning)
    requires at <= dollar && dollar + 1 < |s| && s[dollar] == '$'
             && s[dollar + 1] != '{' && end == NameEnd(s, dollar + 1)
    requires Joins(NamesRest(s, at, f), s[at..dollar], NamesRest(s, dollar, f))
    ensures Joins(NamesRest(s, at, f), NameStep(s, at, dollar, end, f(s[dollar + 1..end])).add, NamesRest(s, end, f))
  {
    var shown := NamedValue(s[dollar + 1..end], f(s[dollar + 1..end]));
    hide Joins;
    assert NamesRest(s, dollar, f) == shown + NamesRest(s, end, f);
    hide NamesRest, NameEnd;
    WrittenName(s, at, dollar, end);
    JoinsAdd(NamesRest(s, at, f), s[at..dollar], NamesRest(s, dollar, f), shown, NamesRest(s, end, f));
  }

  lemma WrittenName(s: string, at: nat, dollar: nat, end: nat)
    requires at <= dollar < end <= |s| && s[dollar] == '$'
    ensures s[at..dollar] + ("$" + s[dollar + 1..end]) == s[at..end]
  {
  }

  lemma {:induction false} NamesPlain(s: string, at: nat, f: Meaning)
    requires at <= |s| && IndexOf(s, '$', at) != -1
    ensures Joins(NamesRest(s, at, f), s[at..IndexOf(s, '$', at)], NamesRest(s, IndexOf(s, '$', at), f))
    decreases |s| - at
  {
    var dollar := IndexOf(s, '$', at);
    if dollar != at {
      NamesPlain(s, at + 1, f);
      hide Joins;
      assert NamesRest(s, at, f) == [s[at]] + NamesRest(s, at + 1, f);
      hide NamesRest;
      JoinsIs(NamesRest(s, at, f), [s[at]], NamesRest(s, at + 1, f));
      JoinsChain(NamesRest(s, at, f), [s[at]], NamesRest(s, at + 1, f), s[at + 1..dollar], NamesRest(s, dollar, f));
      SliceTail(s, at, dollar);
    }
  }

  lemma {:induction false} NamesEnded(s: string, at: nat, f: Meaning)
    requires at <= |s| && (IndexOf(s, '$', at) == -1 || IndexOf(s, '$', at) + 1 == |s|)
    ensures NamesRest(s, at, f) == s[at..]
    decreases |s| - at
  {
    if at < |s| {
      NamesEnded(s, at + 1, f);
      SliceTail(s, at, |s|);
    }
  }

  lemma NamesCopied(s: string, at: nat, k: nat, f: Meaning)
    requires at <= k < |s| && (k + 1 == |s| || s[k] != '$' || s[k + 1] == '{')
    requires Joins(NamesRest(s, at, f), s[at..k], NamesRest(s, k, f))
    ensures Joins(NamesRest(s, at, f), s[at..k + 1], NamesRest(s, k + 1, f))
  {
    hide Joins;
    assert NamesRest(s, k, f) == [s[k]] + NamesRest(s, k + 1, f);
    hide NamesRest;
    SliceGrows(s, at, k);
    JoinsAdd(NamesRest(s, at, f), s[at..k], NamesRest(s, k, f), [s[k]], NamesRest(s, k + 1, f));
  }

  // ---------- what pass one means ----------

  /** A text taken apart at its references. */
  datatype Template =
    | Tail(text: string)
    | Reference(text: string, name: string, colon: bool, default: string, next: Template)

  /** Texts hold no "${", names no ':' or '}', defaults no '}'; only the tail may hold an opening,
      one that is never closed. */
  predicate Proper(t: Template) {
    match t
    case Tail(text) => OpenFrom(text, 0) == -1 || IndexOf(text, '}', OpenFrom(text, 0) + 2) == -1
    case Reference(text, name, colon, default, next) =>
      OpenFrom(text, 0) == -1 && ':' !in name && '}' !in name && '}' !in default && (!colon ==> default == "")
        && Proper(next)
  }

  function Inside(name: string, colon: bool, default: string): string {
    if colon then name + ":" + default else name
  }

  /** The template as it is written. */
  function Source(t: Template): string {
    match t
    case Tail(text) => text
    case Reference(text, name, colon, default, next) =>
      Framed(text, Inside(name, colon, default), Source(next))
  }

  function Framed(text: string, inside: string, rest: string): string {
    text + Braced(inside) + rest
  }

  /** The template with each reference given its value. */
  function Evaluated(t: Template, env: Environment): string {
    match t
    case Tail(text) => text
    case Reference(text, name, colon, default, next) =>
      text + Value(name, colon, default, env) + Evaluated(next, env)
  }

  function Value(name: string, colon: bool, default: string, env: Environment): string {
    if name in env then env[name]
    else if default != "" then default
    else Braced(Inside(name, colon, default))
  }

  /** Pass one gives each reference its value and leaves the text between as it is. */
  lemma {:induction false} ExpandSource(t: Template, env: Environment)
    requires Proper(t)
    ensures ExpandBraces(Source(t), env) == Evaluated(t, env)
  {
    match t
    case Tail(text) =>
      BracesEnded(text, 0, BraceMeaning(env));
    case Reference(text, name, colon, default, next) =>
      ExpandSource(next, env);
      var inside := Inside(name, colon, default);
      InsideRead(name, colon, default, env);
      ExpandFramed(text, inside, Source(next), BraceMeaning(env));
  }

  lemma InsideRead(name: string, colon: bool, default: string, env: Environment)
    requires ':' !in name && '}' !in name && '}' !in default && (!colon ==> default == "")
    ensures '}' !in Inside(name, colon, default)
    ensures BracedValue(Inside(name, colon, default), ValueOf(Inside(name, colon, default), env))
            == Value(name, colon, default, env)
  {
    var inside := Inside(name, colon, default);
    if colon {
      FirstIndex(inside, ':', 0, |name|);
      assert inside[..|name|] == name && inside[|name| + 1..] == default;
    } else {
      NoIndex(inside, ':', 0);
    }
  }

  lemma ExpandFramed(text: string, inside: string, rest: string, f: Meaning)
    requires OpenFrom(text, 0) == -1 && '}' !in inside
    ensures BracesRest(Framed(text, inside, rest), 0, f)
            == text + BracedValue(inside, f(inside)) + BracesRest(rest, 0, f)
  {
    hide Joins, Framed, BracesRest, BracedValue;
    var s := Framed(text, inside, rest);
    var close := |text| + 2 + |inside|;
    var shown := BracedValue(inside, f(inside));
    FramedAt(text, inside, rest);
    FirstOpen(text, s, 0);
    FirstIndex(s, '}', |text| + 2, close);
    BracesPlain(s, 0, f);
    ReferenceUnfolds(s, |text|, close, inside, f);
    SameBraces(rest, 0, s, close + 1, f);
    JoinsAdd(BracesRest(s, 0, f), text, BracesRest(s, |text|, f), shown, BracesRest(rest, 0, f));
    JoinsIs(BracesRest(s, 0, f), text + shown, BracesRest(rest, 0, f));
  }

  lemma ReferenceUnfolds(s: string, at: nat, close: nat, inside: string, f: Meaning)
    requires at + 1 < |s| && s[at] == '$' && s[at + 1] == '{' && IndexOf(s, '}', at + 2) == close
             && s[at + 2..close] == inside
    ensures BracesRest(s, at, f) == BracedValue(inside, f(inside)) + BracesRest(s, close + 1, f)
  {
    hide IndexOf, BracedValue;
  }

  lemma CopyUnfolds(s: string, at: nat, f: Meaning)
    requires at < |s| && (at + 1 == |s| || s[at] != '$' || s[at + 1] != '{' || IndexOf(s, '}', at + 2) == -1)
    ensures BracesRest(s, at, f) == [s[at]] + BracesRest(s, at + 1, f)
  {
  }

  lemma FramedAt(text: string, inside: string, rest: string)
    requires '}' !in inside
    ensures var s := Framed(text, inside, rest);
            var close := |text| + 2 + |inside|;
            && close < |s| && Begins(text, s) && s[0..|text|] == text
            && s[|text|] == '$' && s[|text| + 1] == '{' && s[close] == '}'
            && s[|text| + 2..close] == inside && Alike(rest, 0, s, close + 1)
            && forall k :: |text| + 2 <= k < close ==> s[k] != '}'
  {
    var s := Framed(text, inside, rest);
    forall k | |text| + 2 <= k < |text| + 2 + |inside| ensures s[k] != '}' {
      assert s[k] == inside[k - |text| - 2];
    }
  }

  /** A text without an opening, followed by one. */
  lemma {:induction false} FirstOpen(text: string, s: string, from: nat)
    requires from <= |text| && OpenFrom(text, from) == -1 && Begins(text, s)
    requires |text| + 2 <= |s| && s[|text|] == '$' && s[|text| + 1] == '{'
    ensures OpenFrom(s, from) == |text|
    decreases |text| - from
  {
    if from < |text| {
      assert text[from] == s[from];
      assert from + 1 < |text| ==> text[from + 1] == s[from + 1];
      FirstOpen(text, s, from + 1);
    }
  }

  lemma AlikeLater(s: string, i: nat, t: string, j: nat, n: nat)
    requires Alike(s, i, t, j) && i + n <= |s|
    ensures Alike(s, i + n, t, j + n) && |s| - i == |t| - j && (i + n < |s| ==> s[i + n] == t[j + n])
  {
  }

  lemma BothEnd(s: string, t: string, f: Meaning)
    ensures BracesRest(s, |s|, f) == BracesRest(t, |t|, f)
    ensures NamesRest(s, |s|, f) == NamesRest(t, |t|, f)
  {
  }

  lemma {:induction false} SameBraces(s: string, i: nat, t: string, j: nat, f: Meaning)
    requires Alike(s, i, t, j) && i <= |s| && j <= |t|
    ensures BracesRest(s, i, f) == BracesRest(t, j, f)
    decreases |s| - i
  {
    hide BracesRest, IndexOf, Alike;
    AlikeLater(s, i, t, j, 0);
    if i == |s| {
      BothEnd(s, t, f);
    } else if i + 1 < |s| && s[i] == '$' && s[i + 1] == '{' && IndexOf(s, '}', i + 2) != -1 {
      var close := IndexOf(s, '}', i + 2);
      AlikeLater(s, i, t, j, 2);
      SameIndexOf(s, i + 2, t, j + 2, '}');
      AlikeLater(s, i, t, j, close + 1 - i);
      SameBraces(s, close + 1, t, close + 1 - i + j, f);
      SameReference(s, i, t, j, close, f);
    } else {
      AlikeLater(s, i, t, j, 1);
      SameBraces(s, i + 1, t, j + 1, f);
      SameCopy(s, i, t, j, f);
    }
  }

  lemma SameCopy(s: string, i: nat, t: string, j: nat, f: Meaning)
    requires Alike(s, i, t, j) && i < |s|
    requires i + 1 == |s| || s[i] != '$' || s[i + 1] != '{' || IndexOf(s, '}', i + 2) == -1
    requires BracesRest(s, i + 1, f) == BracesRest(t, j + 1, f)
    ensures BracesRest(s, i, f) == BracesRest(t, j, f)
  {
    hide BracesRest, IndexOf;
    if i + 1 < |s| {
      SameIndexOf(s, i + 2, t, j + 2, '}');
    }
    CopyUnfolds(s, i, f);
    CopyUnfolds(t, j, f);
  }

  lemma SameReference(s: string, i: nat, t: string, j: nat, close: nat, f: Meaning)
    requires Alike(s, i, t, j) && i + 1 < |s| && s[i] == '$' && s[i + 1] == '{'
    requires IndexOf(s, '}', i + 2) == close && IndexOf(t, '}', j + 2) == close - i + j
    requires BracesRest(s, close + 1, f) == BracesRest(t, close + 1 - i + j, f)
    ensures BracesRest(s, i, f) == BracesRest(t, j, f)
  {
    hide BracesRest, IndexOf, BracedValue;
    SameSlice(s, i, t, j, i + 2, close);
    ReferenceUnfolds(s, i, close, s[i + 2..close], f);
    ReferenceUnfolds(t, j, close - i + j, s[i + 2..close], f);
  }

  lemma SameSlice(s: string, i: nat, t: string, j: nat, from: nat, until: nat)
    requires Alike(s, i, t, j) && i <= from <= until <= |s|
    ensures s[from..until] == t[from - i + j..until - i + j]
  {
  }

  function Parsed(s: string): Template
    decreases |s|
  {
    var open := OpenFrom(s, 0);
    if open == -1 || IndexOf(s, '}', open + 2) == -1 then Tail(s)
    else
      var close := IndexOf(s, '}', open + 2);
      var inside := s[open + 2..close];
      Reference(s[..open], NameOf(inside), IndexOf(inside, ':', 0) != -1, DefaultOf(inside), Parsed(s[close + 1..]))
  }

  /** Every text is a template, so pass one is described for all inputs. */
  lemma {:induction false} EveryTextIsTemplate(s: string)
    ensures Proper(Parsed(s)) && Source(Parsed(s)) == s
    decreases |s|
  {
    var open := OpenFrom(s, 0);
    if open != -1 && IndexOf(s, '}', open + 2) != -1 {
      var close := IndexOf(s, '}', open + 2);
      EveryTextIsTemplate(s[close + 1..]);
      BeforeIndex(s, '}', open + 2);
      OpenBefore(s, open, 0);
      InsideParsed(s[open + 2..close]);
      hide Source, Framed, Proper;
      ReferenceParsed(s, open, close, s[open + 2..close]);
    }
  }

  /** For every text: what pass one computes is the text with each reference given its value. */
  lemma ExpandIsEvaluation(s: string, env: Environment)
    ensures ExpandBraces(s, env) == Evaluated(Parsed(s), env)
  {
    hide ExpandBraces, Evaluated, Source, Proper, Parsed;
    EveryTextIsTemplate(s);
    ExpandSource(Parsed(s), env);
  }

  lemma ReferenceParsed(s: string, open: nat, close: nat, inside: string)
    requires open == OpenFrom(s, 0) && close == IndexOf(s, '}', open + 2) && inside == s[open + 2..close]
    requires OpenFrom(s[..open], 0) == -1 && Proper(Parsed(s[close + 1..]))
             && Source(Parsed(s[close + 1..])) == s[close + 1..]
    requires ':' !in NameOf(inside) && '}' !in NameOf(inside) && '}' !in DefaultOf(inside)
    requires IndexOf(inside, ':', 0) == -1 ==> DefaultOf(inside) == ""
    requires Inside(NameOf(inside), IndexOf(inside, ':', 0) != -1, DefaultOf(inside)) == inside
    ensures Proper(Parsed(s)) && Source(Parsed(s)) == s
  {
    hide NameOf, DefaultOf, Inside, Framed, IndexOf;
    FramedWhole(s, open, close);
  }

  lemma FramedWhole(s: string, open: nat, close: nat)
    requires open + 2 <= close < |s| && s[open] == '$' && s[open + 1] == '{' && s[close] == '}'
    ensures Framed(s[..open], s[open + 2..close], s[close + 1..]) == s
  {
  }

  lemma {:induction false} OpenBefore(s: string, open: nat, from: nat)
    requires from <= open && OpenFrom(s, from) == open
    ensures OpenFrom(s[..open], from) == -1
    decreases open - from
  {
    if from < open {
      OpenBefore(s, open, from + 1);
    }
  }

  lemma InsideParsed(inside: string)
    requires '}' !in inside
    ensures ':' !in NameOf(inside) && '}' !in NameOf(inside) && '}' !in DefaultOf(inside)
    ensures Inside(NameOf(inside), IndexOf(inside, ':', 0) != -1, DefaultOf(inside)) == inside
  {
    hide IndexOf;
    BeforeIndex(inside, ':', 0);
    var colon := IndexOf(inside, ':', 0);
    if colon != -1 {
      assert inside[..colon] + ":" + inside[colon + 1..] == inside;
    }
  }

  // ---------- what pass two means ----------

  lemma NameExpands(text: string, name: string, rest: string, env: Environment)
    requires '$' !in text && forall k :: 0 <= k < |name| ==> IsNameChar(name[k])
    requires rest != "" ==> !IsNameChar(rest[0]) && (name == "" ==> rest[0] != '{')
    ensures ExpandNames(text + ("$" + name) + rest, env)
            == text + NamedValue(name, NameValue(name, env)) + ExpandNames(rest, env)
  {
    var s := text + ("$" + name) + rest;
    var f := NameMeaning(env);
    var end := |text| + 1 + |name|;
    NamedAt(text, name, rest);
    FirstIndex(s, '$', 0, |text|);
    NameEndIs(s, |text| + 1, end);
    NamesPlain(s, 0, f);
    SameNames(rest, 0, s, end, f);
    var shown := NamedValue(name, NameValue(name, env));
    NameShown(s, |text|, end, name, env);
    hide Joins, NamesRest, IndexOf, NameEnd;
    JoinsAdd(NamesRest(s, 0, f), text, NamesRest(s, |text|, f), shown, NamesRest(rest, 0, f));
    JoinsIs(NamesRest(s, 0, f), text + shown, NamesRest(rest, 0, f));
  }

  lemma ValueShown(name: string, env: Environment)
    ensures NamedValue(name, NameValue(name, env)) == if name != "" && name in env then env[name] else "$" + name
  {
  }

  /** `$NAME` is replaced when the name is set, and stays otherwise; the name is the longest one;
      the text before it stays. */
  lemma ExpandName(text: string, name: string, rest: string, env: Environment)
    requires '$' !in text && forall k :: 0 <= k < |name| ==> IsNameChar(name[k])
    requires rest != "" ==> !IsNameChar(rest[0]) && (name == "" ==> rest[0] != '{')
    ensures ExpandNames(text + ("$" + name) + rest, env)
            == text + (if name != "" && name in env then env[name] else "$" + name) + ExpandNames(rest, env)
  {
    hide NamedValue, NameValue, ExpandNames;
    ValueShown(name, env);
    NameExpands(text, name, rest, env);
  }

  /** A `$` before a brace stays, and the text goes on with the brace. */
  lemma ExpandBrace(text: string, rest: string, env: Environment)
    requires '$' !in text && rest != "" && rest[0] == '{'
    ensures ExpandNames(text + "$" + rest, env) == text + "$" + ExpandNames(rest, env)
  {
    var s := text + ("$" + "") + rest;
    var f := NameMeaning(env);
    assert text + ("$" + "") + rest == text + "$" + rest;
    NamedAt(text, "", rest);
    FirstIndex(s, '$', 0, |text|);
    NamesPlain(s, 0, f);
    SameNames(rest, 0, s, |text| + 1, f);
    NameCopyUnfolds(s, |text|, f);
    hide Joins, NamesRest, IndexOf, NameEnd;
    JoinsAdd(NamesRest(s, 0, f), text, NamesRest(s, |text|, f), "$", NamesRest(rest, 0, f));
    JoinsIs(NamesRest(s, 0, f), text + "$", NamesRest(rest, 0, f));
  }

  /** A text taken apart at its dollar signs: those with a name after them, and those without. */
  datatype NameTemplate =
    | End(text: string)
    | Named(text: string, name: string, next: NameTemplate)
    | Bare(text: string, next: NameTemplate)

  /** Letters, digits and the underscore of the ASCII code. */
  predicate NameCode(c: char) {
    var n := c as int;
    48 <= n <= 57 || 65 <= n <= 90 || n == 95 || 97 <= n <= 122
  }

  predicate NameCodes(s: string) {
    forall i :: 0 <= i < |s| ==> NameCode(s[i])
  }

  /** Texts hold no dollar sign; a name is not empty, made of name characters, and the longest. */
  predicate ProperNames(t: NameTemplate) {
    match t
    case End(text) => '$' !in text
    case Named(text, name, next) =>
      '$' !in text && name != "" && NameCodes(name) && ProperNames(next) && NoNameFirst(NameSource(next))
    case Bare(text, next) => '$' !in text && ProperNames(next) && NoNameFirst(NameSource(next))
  }

  predicate NoNameFirst(s: string) {
    s == "" || !NameCode(s[0])
  }

  /** The template as it is written. */
  function NameSource(t: NameTemplate): string {
    match t
    case End(text) => text
    case Named(text, name, next) => text + ("$" + name) + NameSource(next)
    case Bare(text, next) => text + "$" + NameSource(next)
  }

  /** The template with each name that is set replaced by its value. */
  function NamesEvaluated(t: NameTemplate, env: Environment): string {
    match t
    case End(text) => text
    case Named(text, name, next) =>
      text + (if name in env then env[name] else "$" + name) + NamesEvaluated(next, env)
    case Bare(text, next) => text + "$" + NamesEvaluated(next, env)
  }

  lemma SameCharacters()
    ensures forall c :: IsNameChar(c) <==> NameCode(c)
  {
  }

  lemma {:induction false} ExpandNamesSource(t: NameTemplate, env: Environment)
    requires ProperNames(t)
    ensures ExpandNames(NameSource(t), env) == NamesEvaluated(t, env)
  {
    SameCharacters();
    match t
    case End(text) =>
      NoIndex(text, '$', 0);
      NamesEnded(text, 0, NameMeaning(env));
    case Named(text, name, next) =>
      hide ExpandNames, NameCode, IsNameChar;
      ExpandNamesSource(next, env);
      ExpandName(text, name, NameSource(next), env);
    case Bare(text, next) =>
      hide ExpandNames, NameCode, IsNameChar;
      ExpandNamesSource(next, env);
      var rest := NameSource(next);
      if rest != "" && rest[0] == '{' {
        ExpandBrace(text, rest, env);
      } else {
        ExpandName(text, "", rest, env);
        DollarAlone();
      }
  }

  lemma DollarAlone()
    ensures "$" + "" == "$"
  {
  }

  function NamesParsed(s: string): NameTemplate
    decreases |s|
  {
    var dollar := IndexOf(s, '$', 0);
    if dollar == -1 then End(s)
    else
      var end := NameEnd(s, dollar + 1);
      if end == dollar + 1 then Bare(s[..dollar], NamesParsed(s[end..]))
      else Named(s[..dollar], s[dollar + 1..end], NamesParsed(s[end..]))
  }

  lemma {:induction false} LongestName(s: string, i: nat)
    requires i <= |s|
    ensures var end := NameEnd(s, i);
            && (forall k :: i <= k < end ==> IsNameChar(s[k])) && (end < |s| ==> !IsNameChar(s[end]))
    decreases |s| - i
  {
    if i < |s| && IsNameChar(s[i]) {
      LongestName(s, i + 1);
    }
  }

  lemma NameWhole(s: string, dollar: nat, end: nat)
    requires dollar < end <= |s| && s[dollar] == '$'
    ensures s[..dollar] + ("$" + s[dollar + 1..end]) + s[end..] == s
    ensures end == dollar + 1 ==> s[..dollar] + "$" + s[end..] == s
  {
  }

  lemma NameReferenceParsed(s: string, dollar: nat, end: nat)
    requires dollar == IndexOf(s, '$', 0) && end == NameEnd(s, dollar + 1) && '$' !in s[..dollar]
    requires NameCodes(s[dollar + 1..end])
    requires ProperNames(NamesParsed(s[end..])) && NameSource(NamesParsed(s[end..])) == s[end..]
    requires NoNameFirst(s[end..])
    ensures ProperNames(NamesParsed(s)) && NameSource(NamesParsed(s)) == s
  {
    hide IndexOf, NameEnd, NoNameFirst, NameCodes;
    NameWhole(s, dollar, end);
  }

  /** Every text is such a template, so pass two is described for all inputs. */
  lemma {:induction false} EveryTextIsNameTemplate(s: string)
    ensures ProperNames(NamesParsed(s)) && NameSource(NamesParsed(s)) == s
    decreases |s|
  {
    BeforeIndex(s, '$', 0);
    var dollar := IndexOf(s, '$', 0);
    if dollar != -1 {
      var end := NameEnd(s, dollar + 1);
      LongestName(s, dollar + 1);
      SameCharacters();
      assert end < |s| ==> s[end..][0] == s[end];
      hide IndexOf, NameEnd, IsNameChar, NameCode, NameSource, ProperNames, NamesParsed;
      EveryTextIsNameTemplate(s[end..]);
      NameReferenceParsed(s, dollar, end);
    }
  }

  /** For every text: what pass two computes is the text with each name that is set replaced by its value,
      and everything else as it is. */
  lemma ExpandNamesIsEvaluation(s: string, env: Environment)
    ensures ExpandNames(s, env) == NamesEvaluated(NamesParsed(s), env)
  {
    hide ExpandNames, NamesEvaluated, NameSource, ProperNames, NamesParsed;
    EveryTextIsNameTemplate(s);
    ExpandNamesSource(NamesParsed(s), env);
  }

  lemma NameShown(s: string, at: nat, end: nat, name: string, env: Environment)
    requires at < end <= |s| && s[at] == '$' && end == NameEnd(s, at + 1) && s[at + 1..end] == name
    requires name == "" && at + 1 < |s| ==> s[at + 1] != '{'
    requires name != "" ==> IsNameChar(s[at + 1])
    ensures NamesRest(s, at, NameMeaning(env))
            == NamedValue(name, NameValue(name, env)) + NamesRest(s, end, NameMeaning(env))
  {
  }

  lemma NameCopyUnfolds(s: string, at: nat, f: Meaning)
    requires at < |s| && (at + 1 == |s| || s[at] != '$' || s[at + 1] == '{')
    ensures NamesRest(s, at, f) == [s[at]] + NamesRest(s, at + 1, f)
  {
  }

  lemma NameUnfolds(s: string, at: nat, end: nat, name: string, f: Meaning)
    requires at + 1 < |s| && s[at] == '$' && s[at + 1] != '{' && end == NameEnd(s, at + 1) && s[at + 1..end] == name
    ensures NamesRest(s, at, f) == NamedValue(name, f(name)) + NamesRest(s, end, f)
  {
    hide NameEnd, NamedValue;
  }

  lemma NamedAt(text: string, name: string, rest: string)
    requires '$' !in text && forall k :: 0 <= k < |name| ==> IsNameChar(name[k])
    ensures var s := text + ("$" + name) + rest;
            var end := |text| + 1 + |name|;
            && end <= |s| && s[|text|] == '$' && s[0..|text|] == text && s[|text| + 1..end] == name
              && Alike(rest, 0, s, end)
            && (forall k :: 0 <= k < |text| ==> s[k] != '$')
            && (forall k :: |text| < k < end ==> IsNameChar(s[k]))
            && (end < |s| ==> s[end] == rest[0])
  {
    var s := text + ("$" + name) + rest;
    forall k | 0 <= k < |text| ensures s[k] != '$' {
      assert s[k] == text[k];
    }
    forall k | |text| < k < |text| + 1 + |name| ensures IsNameChar(s[k]) {
      assert s[k] == name[k - |text| - 1];
    }
  }

  lemma {:induction false} NameEndIs(s: string, i: nat, end: nat)
    requires i <= end <= |s| && (forall k :: i <= k < end ==> IsNameChar(s[k])) && (end < |s| ==> !IsNameChar(s[end]))
    ensures NameEnd(s, i) == end
    decreases end - i
  {
    if i < end {
      NameEndIs(s, i + 1, end);
    }
  }

  lemma {:induction false} SameNames(s: string, i: nat, t: string, j: nat, f: Meaning)
    requires Alike(s, i, t, j) && i <= |s| && j <= |t|
    ensures NamesRest(s, i, f) == NamesRest(t, j, f)
    decreases |s| - i
  {
    hide NamesRest, NameEnd, Alike;
    AlikeLater(s, i, t, j, 0);
    if i == |s| {
      BothEnd(s, t, f);
    } else {
      AlikeLater(s, i, t, j, 1);
      if i + 1 == |s| || s[i] != '$' || s[i + 1] == '{' {
        SameNames(s, i + 1, t, j + 1, f);
        NameCopyUnfolds(s, i, f);
        NameCopyUnfolds(t, j, f);
      } else {
        SameNameEnd(s, i + 1, t, j + 1);
        var end := NameEnd(s, i + 1);
        AlikeLater(s, i, t, j, end - i);
        SameNames(s, end, t, end - i + j, f);
        SameName(s, i, t, j, end, f);
      }
    }
  }

  lemma SameName(s: string, i: nat, t: string, j: nat, end: nat, f: Meaning)
    requires Alike(s, i, t, j) && i + 1 < |s| && s[i] == '$' && s[i + 1] != '{'
    requires NameEnd(s, i + 1) == end && NameEnd(t, j + 1) == end - i + j
    requires NamesRest(s, end, f) == NamesRest(t, end - i + j, f)
    ensures NamesRest(s, i, f) == NamesRest(t, j, f)
  {
    hide NamesRest, NameEnd, NamedValue;
    SameSlice(s, i, t, j, i + 1, end);
    NameUnfolds(s, i, end, s[i + 1..end], f);
    NameUnfolds(t, j, end - i + j, s[i + 1..end], f);
  }

  /** A text without `$` comes back as it went in. */
  lemma PlainTextUnchanged(value: string, env: Environment)
    requires '$' !in value
    ensures ExpandNames(ExpandBraces(value, env), env) == value
  {
    NoOpen(value, 0);
    NoIndex(value, '$', 0);
    BracesEnded(value, 0, BraceMeaning(env));
    NamesEnded(value, 0, NameMeaning(env));
  }

  lemma {:induction false} NoOpen(s: string, from: nat)
    requires '$' !in s
    ensures OpenFrom(s, from) == -1
    decreases |s| - from
  {
    if from + 1 < |s| {
      NoOpen(s, from + 1);
    }
  }
}
