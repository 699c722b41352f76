/** Log rotation: the current file is renamed to slot 0, each slot to the next one, and the oldest is
    overwritten. The program shifts file names; what it is for is a window on the stream of lines. */
module LogRotation {
  import Text

  /** The names a log can have: the configured one, with a slot number, and with ".gz" after that. */
  datatype File = Current | Slot(i: nat) | Gz(i: nat)

  type Files = map<File, seq<string>>

  datatype Settings = Settings(maxFiles: nat, compress: bool)

  const SIZE_RANGE: nat := 0x1_0000_0000_0000_0000

  /** How many places the loop goes through. Its counter starts at one less than `maxFiles`, which
      wraps around for zero. */
  function Count(c: Settings): (n: nat)
    ensures n >= 1
  {
    if c.maxFiles == 0 then SIZE_RANGE else c.maxFiles
  }

  /** The rotated files, newest first. Only the last may be marked as compressed. */
  function Place(c: Settings, j: nat): File {
    if c.compress && j > 0 && j == Count(c) - 1 then Gz(j - 1) else Slot(j)
  }

  function Renamed(files: Files, source: File, target: File): Files {
    if source in files && source != target then files[target := files[source]] - {source} else files
  }

  /** The renaming loop, from step `i` down to 1. */
  function Shifted(c: Settings, files: Files, i: nat): Files
    decreases i
  {
    if i == 0 then files else Shifted(c, Renamed(files, Place(c, i - 1), Place(c, i)), i - 1)
  }

  function Rotated(c: Settings, files: Files): Files
  {
    Renamed(Shifted(c, files, Count(c) - 1), Current, Slot(0))[Current := []]
  }

  /** Each line is followed by a newline. */
  function Bytes(lines: seq<string>): nat {
    if lines == [] then 0 else Bytes(lines[..|lines| - 1]) + |lines[|lines| - 1]| + 1
  }

  datatype State = State(files: Files, size: nat, maxSize: nat)

  /** A line is written, a rotation asked for, or the size limit changed. A written line asks for a
      rotation itself when the limit is met. */
  datatype Event = Line(text: string) | Rotate | SetMaxSize(maxSize: nat)

  function Start(maxSize: nat): State {
    State(map[Current := []], 0, maxSize)
  }

  function Appended(s: State, line: string): State
    requires Current in s.files
  {
    s.(files := s.files[Current := s.files[Current] + [line]], size := s.size + |line| + 1)
  }

  function Turned(c: Settings, s: State): State {
    s.(files := Rotated(c, s.files), size := 0)
  }

  function Step(c: Settings, s: State, e: Event): (t: State)
    requires Current in s.files
    ensures Current in t.files
  {
    match e
    case Line(text) =>
      var t := Appended(s, text);
      if t.size >= s.maxSize then Turned(c, t) else t
    case Rotate => Turned(c, s)
    case SetMaxSize(maxSize) => s.(maxSize := maxSize)
  }

  // ---------- the program ----------

  class Logger {
    const settings: Settings
    var files: Files
    var size: nat
    var maxSize: nat

    ghost predicate Valid()
      reads this
    {
      Current in files
    }

    ghost function View(): State
      reads this
    {
      State(files, size, maxSize)
    }

    constructor (settings: Settings, maxSize: nat)
      ensures Valid() && View() == Start(maxSize) && this.settings == settings
    {
      this.settings, this.maxSize := settings, maxSize;
      files, size := map[Current := []], 0;
    }

    method SetMaxFileSize(maxSize: nat)
      requires Valid()
      modifies this`maxSize
      ensures Valid() && View() == Step(settings, old(View()), SetMaxSize(maxSize))
    {
      this.maxSize := maxSize;
    }

    method CompressLog(filename: File)
      requires filename.Slot?
      modifies this`files
      ensures files == Renamed(old(files), filename, Gz(filename.i))
    {
      if filename in files {
        files := files[Gz(filename.i) := files[filename]] - {filename};
      }
    }

    method RotateLog()
      requires Valid()
      modifies this`files, this`size
      ensures Valid() && View() == Step(settings, old(View()), Rotate)
    {
      var i := Count(settings) - 1;
      while i > 0
        invariant 0 <= i <= Count(settings) - 1
        invariant Shifted(settings, files, i) == Shifted(settings, old(files), Count(settings) - 1)
      {
        var oldFile, newFile := Slot(i - 1), Slot(i);
        if oldFile in files {
          if i == Count(settings) - 1 && settings.compress {
            CompressLog(oldFile);
          } else {
            files := files[newFile := files[oldFile]] - {oldFile};
          }
        }
        i := i - 1;
      }
      if Current in files {
        files := files[Slot(0) := files[Current]] - {Current};
      }
      files := files[Current := []];
      size := 0;
    }

    method LogEntry(line: string)
      requires Valid()
      modifies this`files, this`size
      ensures Valid() && View() == Step(settings, old(View()), Line(line))
    {
      files := files[Current := files[Current] + [line]];
      size := size + |line| + 1;
      if size >= maxSize {
        RotateLog();
      }
    }
  }

  // ---------- what rotation is for ----------

  /** The files are the current generation and the newest of the closed ones, one in each place. */
  ghost predicate Shows(c: Settings, files: Files, closed: seq<seq<string>>, current: seq<string>) {
    && Current in files && files[Current] == current
    && (forall j: nat {:trigger Place(c, j)} :: j < Count(c) ==> (Place(c, j) in files <==> j < |closed|))
    && (forall j: nat {:trigger Place(c, j)} :: j < Count(c) && j < |closed| ==>
      files[Place(c, j)] == closed[|closed| - 1 - j])
    && (forall f :: f in files ==> f == Current || exists j: nat :: j < Count(c) && f == Place(c, j))
  }

  lemma PlacesDiffer(c: Settings, i: nat, j: nat)
    requires i < Count(c) && j < Count(c) && i != j
    ensures Place(c, i) != Place(c, j)
  {
  }

  /** The loop touches the places only. */
  lemma {:induction false} ShiftedOther(c: Settings, files: Files, i: nat, f: File)
    requires i < Count(c) && (i == 0 || forall j: nat :: j <= i ==> f != Place(c, j))
    ensures f in Shifted(c, files, i) <==> f in files
    ensures f in files ==> Shifted(c, files, i)[f] == files[f]
    decreases i
  {
    if i > 0 {
      ShiftedOther(c, Renamed(files, Place(c, i - 1), Place(c, i)), i - 1, f);
    }
  }

  /** Each place gets what the one before it held; the oldest keeps its own if there is nothing to
      replace it. */
  lemma {:induction false} ShiftedAt(c: Settings, files: Files, i: nat, j: nat)
    requires 1 <= j <= i < Count(c)
    ensures var t := Shifted(c, files, i);
            && (Place(c, j) in t <==> Place(c, j - 1) in files || (j == i && Place(c, j) in files))
            && (Place(c, j - 1) in files ==> t[Place(c, j)] == files[Place(c, j - 1)])
            && (Place(c, j - 1) !in files && j == i && Place(c, j) in files ==> t[Place(c, j)] == files[Place(c, j)])
    decreases i
  {
    var next := Renamed(files, Place(c, i - 1), Place(c, i));
    PlacesDiffer(c, i - 1, i);
    if j == i {
      forall k: nat | k <= i - 1 ensures Place(c, k) != Place(c, i) {
        PlacesDiffer(c, k, i);
      }
      ShiftedOther(c, next, i - 1, Place(c, i));
    } else {
      PlacesDiffer(c, j - 1, i);
      PlacesDiffer(c, j - 1, i - 1);
      PlacesDiffer(c, j, i);
      ShiftedAt(c, next, i - 1, j);
    }
  }

  lemma RotatedAt(c: Settings, files: Files, closed: seq<seq<string>>, current: seq<string>, j: nat)
    requires Shows(c, files, closed, current) && j < Count(c)
    ensures var r := Rotated(c, files);
            var newer := closed + [current];
            && (Place(c, j) in r <==> j < |newer|)
            && (j < |newer| ==> r[Place(c, j)] == newer[|newer| - 1 - j])
  {
    CurrentStays(c, files);
    if j > 0 {
      ShiftedAt(c, files, Count(c) - 1, j);
      hide Shifted;
      PlacesDiffer(c, 0, j);
      assert Place(c, j - 1) in files <==> j - 1 < |closed|;
      assert Place(c, j) in files <==> j < |closed|;
      assert j - 1 < |closed| ==> files[Place(c, j - 1)] == closed[|closed| - j];
    }
  }

  lemma CurrentStays(c: Settings, files: Files)
    ensures Current in files ==>
              && Current in Shifted(c, files, Count(c) - 1)
              && Shifted(c, files, Count(c) - 1)[Current] == files[Current]
  {
    ShiftedOther(c, files, Count(c) - 1, Current);
  }

  lemma OtherFiles(c: Settings, files: Files, f: File)
    requires f in Rotated(c, files) && f != Current
    ensures f in files || exists j: nat :: j < Count(c) && f == Place(c, j)
  {
    if forall j: nat :: j < Count(c) ==> f != Place(c, j) {
      ShiftedOther(c, files, Count(c) - 1, f);
    }
    assert Place(c, 0) == Slot(0);
  }

  lemma RotatedShows(c: Settings, files: Files, closed: seq<seq<string>>, current: seq<string>)
    requires Shows(c, files, closed, current)
    ensures Shows(c, Rotated(c, files), closed + [current], [])
  {
    forall f | f in Rotated(c, files) ensures f == Current || exists j: nat :: j < Count(c) && f == Place(c, j) {
      if f != Current {
        OtherFiles(c, files, f);
      }
    }
    assert Current in Rotated(c, files) && Rotated(c, files)[Current] == [];
    hide Rotated;
    forall j: nat | j < Count(c)
      ensures Place(c, j) in Rotated(c, files) <==> j < |closed| + 1
      ensures j < |closed| + 1 ==> Rotated(c, files)[Place(c, j)] == (closed + [current])[|closed| - j]
    {
      RotatedAt(c, files, closed, current, j);
    }
  }

  function Flat(parts: seq<seq<string>>): seq<string> {
    if parts == [] then [] else Flat(parts[..|parts| - 1]) + parts[|parts| - 1]
  }

  /** What closed a generation: its size at a limit, or a rotation that was asked for. */
  datatype Cause = Size(limit: nat) | Request

  /** The generations of a run: the closed ones, what closed each, the current one, and the size
      limit in force. */
  datatype Split = Split(closed: seq<seq<string>>, causes: seq<Cause>, current: seq<string>, maxSize: nat)

  function Cut(maxSize: nat, events: seq<Event>): Split {
    if events == [] then Split([], [], [], maxSize)
    else CutMore(Cut(maxSize, events[..|events| - 1]), events[|events| - 1])
  }

  function CutMore(s: Split, e: Event): Split {
    match e
    case Line(text) =>
      var part := s.current + [text];
      if Bytes(part) >= s.maxSize then Closed(s, part, Size(s.maxSize)) else s.(current := part)
    case Rotate => Closed(s, s.current, Request)
    case SetMaxSize(maxSize) => s.(maxSize := maxSize)
  }

  function Closed(s: Split, part: seq<string>, cause: Cause): Split {
    s.(closed := s.closed + [part], causes := s.causes + [cause], current := [])
  }

  /** The lines that were written. */
  function Lines(events: seq<Event>): seq<string> {
    if events == [] then []
    else
      var before, e := Lines(events[..|events| - 1]), events[|events| - 1];
      if e.Line? then before + [e.text] else before
  }

  /** Cutting loses and reorders nothing. */
  lemma {:induction false} CutKeeps(maxSize: nat, events: seq<Event>)
    ensures Flat(Cut(maxSize, events).closed) + Cut(maxSize, events).current == Lines(events)
  {
    if events != [] {
      var before, e := Cut(maxSize, events[..|events| - 1]), events[|events| - 1];
      CutKeeps(maxSize, events[..|events| - 1]);
      hide Flat;
      match e
      case Line(text) =>
        var part := before.current + [text];
        Text.Regroup(Flat(before.closed), before.current, [text]);
        ClosedKeeps(before, part, Size(before.maxSize));
      case Rotate => ClosedKeeps(before, before.current, Request);
      case SetMaxSize(_) =>
    }
  }

  lemma ClosedKeeps(s: Split, part: seq<string>, cause: Cause)
    ensures var t := Closed(s, part, cause);
            Flat(t.closed) + t.current == Flat(s.closed) + part
  {
    FlatBack(s.closed, part);
    hide Flat;
    Nothing(Flat(s.closed + [part]));
  }

  lemma FlatBack(parts: seq<seq<string>>, part: seq<string>)
    ensures Flat(parts + [part]) == Flat(parts) + part
  {
    assert (parts + [part])[..|parts|] == parts;
  }

  lemma Nothing(lines: seq<string>)
    ensures lines + [] == lines && [] + lines == lines
  {
  }

  predicate LimitKept(events: seq<Event>) {
    forall i :: 0 <= i < |events| ==> !events[i].SetMaxSize?
  }

  /** A generation that its size closed met the limit with its last line (`Sized`); while the limit
      is not changed, no earlier line of it did, and the current generation is below the limit
      (`SizedWithin`). */
  lemma {:induction false} CutFull(maxSize: nat, events: seq<Event>, k: nat)
    ensures Sized(Cut(maxSize, events), k)
    ensures LimitKept(events) ==> SizedWithin(Cut(maxSize, events), k, maxSize)
  {
    if events != [] {
      var before, e := Cut(maxSize, events[..|events| - 1]), events[|events| - 1];
      CutFull(maxSize, events[..|events| - 1], k);
      assert LimitKept(events) ==> LimitKept(events[..|events| - 1]) && !e.SetMaxSize?;
      hide Sized, SizedWithin, LimitKept;
      CutMoreSized(before, e, k, maxSize);
    }
  }

  ghost predicate Sized(s: Split, k: nat) {
    && |s.causes| == |s.closed|
    && (k < |s.closed| && s.causes[k].Size? ==> s.closed[k] != [] && Bytes(s.closed[k]) >= s.causes[k].limit)
  }

  ghost predicate SizedWithin(s: Split, k: nat, maxSize: nat) {
    && |s.causes| == |s.closed| && s.maxSize == maxSize
    && (s.current != [] ==> Bytes(s.current) < maxSize)
    && (k < |s.closed| && s.causes[k].Size? && |s.closed[k]| > 1 ==>
          Bytes(s.closed[k][..|s.closed[k]| - 1]) < maxSize)
  }

  lemma CutMoreSized(s: Split, e: Event, k: nat, maxSize: nat)
    requires Sized(s, k)
    ensures Sized(CutMore(s, e), k)
    ensures SizedWithin(s, k, maxSize) && !e.SetMaxSize? ==> SizedWithin(CutMore(s, e), k, maxSize)
  {
    hide Bytes;
    if e.Line? {
      var part := s.current + [e.text];
      assert part[..|part| - 1] == s.current;
    }
  }

  function Run(c: Settings, maxSize: nat, events: seq<Event>): (s: State)
    ensures Current in s.files
  {
    if events == [] then Start(maxSize) else Step(c, Run(c, maxSize, events[..|events| - 1]), events[|events| - 1])
  }

  /** After any lines, rotations and changes of the limit, the files hold the current generation and
      exactly the newest closed ones, as many as there are places (or all, while they are fewer),
      each in its place. */
  lemma {:induction false} RunShows(c: Settings, maxSize: nat, events: seq<Event>)
    ensures var s, split := Run(c, maxSize, events), Cut(maxSize, events);
            && Shows(c, s.files, split.closed, split.current)
            && s.size == Bytes(split.current) && s.maxSize == split.maxSize
  {
    if events != [] {
      var s, split := Run(c, maxSize, events[..|events| - 1]), Cut(maxSize, events[..|events| - 1]);
      hide Run, Cut, Shows, Rotated;
      RunShows(c, maxSize, events[..|events| - 1]);
      RunMore(c, maxSize, events);
      StepShows(c, s, split, events[|events| - 1]);
    }
  }

  function PlacesUpTo(c: Settings, n: nat): set<File> {
    if n == 0 then {} else PlacesUpTo(c, n - 1) + {Place(c, n - 1)}
  }

  lemma AmongMore(c: Settings, n: nat, f: File)
    requires 0 < n <= Count(c)
    ensures AmongFirst(c, n, f) <==> f == Place(c, n - 1) || AmongFirst(c, n - 1, f)
  {
    hide Place, Count;
    if AmongFirst(c, n, f) {
      var j: nat :| j < n && f == Place(c, j);
    }
  }

  lemma FreshPlace(c: Settings, n: nat)
    requires 0 < n <= Count(c)
    ensures !AmongFirst(c, n - 1, Place(c, n - 1))
  {
    forall j: nat | j < n - 1 ensures Place(c, n - 1) != Place(c, j) {
      PlacesDiffer(c, j, n - 1);
    }
  }

  lemma {:induction false} PlacesCounted(c: Settings, n: nat)
    requires n <= Count(c)
    ensures |PlacesUpTo(c, n)| == n
    ensures forall f :: f in PlacesUpTo(c, n) <==> AmongFirst(c, n, f)
  {
    hide Place, Count, AmongFirst;
    if n > 0 {
      PlacesCounted(c, n - 1);
      FreshPlace(c, n);
      forall f { AmongMore(c, n, f); }
    } else {
      NoneAmong(c);
    }
  }

  lemma NoneAmong(c: Settings)
    ensures forall f :: !AmongFirst(c, 0, f)
  {
  }

  ghost predicate AmongFirst(c: Settings, n: nat, f: File) {
    exists j: nat :: j < n && f == Place(c, j)
  }

  lemma FilesAre(c: Settings, files: Files, closed: seq<seq<string>>, current: seq<string>, f: File)
    requires Shows(c, files, closed, current)
    ensures f in files <==>
            f == Current || AmongFirst(c, if |closed| <= Count(c) then |closed| else Count(c), f)
  {
    if f in files && f != Current {
      var j: nat :| j < Count(c) && f == Place(c, j);
      assert j < |closed|;
    }
  }

  lemma FilesCounted(c: Settings, files: Files, closed: seq<seq<string>>, current: seq<string>)
    requires Shows(c, files, closed, current)
    ensures |files| == 1 + if |closed| <= Count(c) then |closed| else Count(c)
  {
    var n := if |closed| <= Count(c) then |closed| else Count(c);
    PlacesCounted(c, n);
    forall f { FilesAre(c, files, closed, current, f); }
    NoPlaceIsCurrent(c, n);
    hide Shows, AmongFirst, PlacesUpTo, Count;
    assert files.Keys == PlacesUpTo(c, n) + {Current};
    assert |files| == |files.Keys|;
  }

  lemma NoPlaceIsCurrent(c: Settings, n: nat)
    ensures !AmongFirst(c, n, Current)
  {
  }

  lemma ShownFiles(c: Settings, files: Files, closed: seq<seq<string>>, current: seq<string>, j: nat)
    requires Shows(c, files, closed, current) && 1 <= c.maxFiles
    ensures j < c.maxFiles && j < |closed| && !(c.compress && 0 < j == c.maxFiles - 1) ==>
              Slot(j) in files && files[Slot(j)] == closed[|closed| - 1 - j]
    ensures c.compress && 2 <= c.maxFiles <= |closed| ==>
              Gz(c.maxFiles - 2) in files && files[Gz(c.maxFiles - 2)] == closed[|closed| - c.maxFiles]
    ensures Slot(j) in files ==> j < c.maxFiles
    ensures Gz(j) in files ==> c.compress && j + 2 == c.maxFiles
  {
    if j < c.maxFiles {
      assert Place(c, j) in files <==> j < |closed|;
    }
    if c.compress && 2 <= c.maxFiles {
      assert Place(c, c.maxFiles - 1) == Gz(c.maxFiles - 2);
    }
  }

  /** After every run of a logger set to keep `maxFiles` rotated files there are so many, or all generations
      while they are fewer: the newest, numbered from 0 on, the oldest of them under a ".gz" name when they
      are compressed. Nothing else is there but the current file, and nothing is lost but older lines. */
  lemma KeepsMaxFiles(c: Settings, maxSize: nat, events: seq<Event>)
    requires 1 <= c.maxFiles
    ensures var files, split := Run(c, maxSize, events).files, Cut(maxSize, events);
            var n := if |split.closed| <= c.maxFiles then |split.closed| else c.maxFiles;
            && |files| == 1 + n && Current in files && files[Current] == split.current
            && (forall j: nat :: j < n && !(c.compress && 0 < j == c.maxFiles - 1) ==>
                  Slot(j) in files && files[Slot(j)] == split.closed[|split.closed| - 1 - j])
            && (c.compress && 2 <= c.maxFiles <= |split.closed| ==>
                  && Gz(c.maxFiles - 2) in files
                  && files[Gz(c.maxFiles - 2)] == split.closed[|split.closed| - c.maxFiles])
            && (forall j: nat :: Slot(j) in files ==> j < c.maxFiles)
            && (forall j: nat :: Gz(j) in files ==> c.compress && j + 2 == c.maxFiles)
            && Flat(split.closed[..|split.closed| - n]) + (Flat(split.closed[|split.closed| - n..]) + files[Current])
               == Lines(events)
  {
    hide Run, Cut, Shows, Lines, Flat;
    var files, split := Run(c, maxSize, events).files, Cut(maxSize, events);
    RunShows(c, maxSize, events);
    CurrentShown(c, files, split.closed, split.current);
    FilesCounted(c, files, split.closed, split.current);
    forall j: nat { ShownFiles(c, files, split.closed, split.current, j); }
    CutKeeps(maxSize, events);
    var n := if |split.closed| <= c.maxFiles then |split.closed| else c.maxFiles;
    FlatSuffix(split.closed, |split.closed| - n);
    Text.Regroup(Flat(split.closed[..|split.closed| - n]), Flat(split.closed[|split.closed| - n..]), split.current);
  }

  /** The text of a file: each line and a newline. */
  function Written(lines: seq<string>): string {
    if lines == [] then "" else Written(lines[..|lines| - 1]) + lines[|lines| - 1] + "\n"
  }

  /** The size that is compared with the limit is that of the text written since the last rotation. */
  lemma {:induction false} BytesOfText(lines: seq<string>)
    ensures Bytes(lines) == |Written(lines)|
  {
    if lines != [] {
      BytesOfText(lines[..|lines| - 1]);
    }
  }

  lemma RunMore(c: Settings, maxSize: nat, events: seq<Event>)
    requires events != []
    ensures Run(c, maxSize, events) == Step(c, Run(c, maxSize, events[..|events| - 1]), events[|events| - 1])
    ensures Cut(maxSize, events) == CutMore(Cut(maxSize, events[..|events| - 1]), events[|events| - 1])
  {
  }

  lemma StepShows(c: Settings, s: State, split: Split, e: Event)
    requires Shows(c, s.files, split.closed, split.current)
    requires s.size == Bytes(split.current) && s.maxSize == split.maxSize
    ensures var t, more := Step(c, s, e), CutMore(split, e);
            && Shows(c, t.files, more.closed, more.current)
            && t.size == Bytes(more.current) && t.maxSize == more.maxSize
  {
    hide Rotated, Place, Shows;
    match e
    case Line(text) =>
      var part := split.current + [text];
      OneMoreLine(split.current, text);
      OneMore(c, s.files, split.closed, split.current, part);
      RotatedShows(c, s.files[Current := part], split.closed, part);
      assert s.files[Current] == split.current by {
        CurrentShown(c, s.files, split.closed, split.current);
      }
    case Rotate => RotatedShows(c, s.files, split.closed, split.current);
    case SetMaxSize(_) =>
  }

  lemma OneMoreLine(part: seq<string>, text: string)
    ensures Bytes(part + [text]) == Bytes(part) + |text| + 1
  {
    assert (part + [text])[..|part|] == part;
  }

  lemma OneMore(c: Settings, files: Files, closed: seq<seq<string>>, current: seq<string>, part: seq<string>)
    requires Shows(c, files, closed, current)
    ensures Shows(c, files[Current := part], closed, part)
  {
    assert forall j: nat :: Place(c, j) != Current;
  }

  /** What the first `n` places hold, oldest first. */
  function Kept(c: Settings, files: Files, n: nat): seq<string> {
    if n == 0 then []
    else if Place(c, n - 1) in files then files[Place(c, n - 1)] + Kept(c, files, n - 1)
    else Kept(c, files, n - 1)
  }

  /** Reading all files, oldest first and the current one last. */
  function ReadBack(c: Settings, files: Files): seq<string>
    requires Current in files
  {
    Kept(c, files, Count(c)) + files[Current]
  }

  lemma {:induction false} KeptIs(c: Settings, files: Files, closed: seq<seq<string>>, current: seq<string>, n: nat)
    requires Shows(c, files, closed, current) && n <= Count(c)
    ensures Kept(c, files, n) == Flat(if n <= |closed| then closed[|closed| - n..] else closed)
  {
    if n > 0 {
      KeptIs(c, files, closed, current, n - 1);
      assert Place(c, n - 1) in files <==> n - 1 < |closed|;
      if n <= |closed| {
        FlatFront(closed[|closed| - n], closed[|closed| - n + 1..]);
        assert [closed[|closed| - n]] + closed[|closed| - n + 1..] == closed[|closed| - n..];
      } else if n - 1 == |closed| {
        assert closed[0..] == closed;
      }
    }
  }

  lemma {:induction false} FlatFront(part: seq<string>, parts: seq<seq<string>>)
    ensures Flat([part] + parts) == part + Flat(parts)
  {
    if parts == [] {
      assert ([part] + parts)[..0] == [];
      assert [part] + parts == [part];
    } else {
      FlatFront(part, parts[..|parts| - 1]);
      assert ([part] + parts)[..|parts|] == [part] + parts[..|parts| - 1];
    }
  }

  lemma {:induction false} FlatSuffix(parts: seq<seq<string>>, n: nat)
    requires n <= |parts|
    ensures Flat(parts) == Flat(parts[..n]) + Flat(parts[n..])
    decreases |parts|
  {
    if n == |parts| {
      assert parts[..n] == parts && parts[n..] == [];
    } else {
      var front := parts[..|parts| - 1];
      FlatSuffix(front, n);
      assert front[..n] == parts[..n];
      assert parts[n..][..|parts| - n - 1] == front[n..];
    }
  }

  /** Reading the files back gives the end of the stream that was logged: the newest lines, all of
      them, in order and once each. */
  lemma ReadBackIsSuffix(c: Settings, maxSize: nat, events: seq<Event>)
    ensures var closed := Cut(maxSize, events).closed;
            var dropped := Flat(if Count(c) <= |closed| then closed[..|closed| - Count(c)] else []);
            dropped + ReadBack(c, Run(c, maxSize, events).files) == Lines(events)
  {
    hide Kept, Flat, Cut, Run, Lines, Shows;
    var split := Cut(maxSize, events);
    RunShows(c, maxSize, events);
    assert Run(c, maxSize, events).files[Current] == split.current by {
      CurrentShown(c, Run(c, maxSize, events).files, split.closed, split.current);
    }
    CutKeeps(maxSize, events);
    KeptIs(c, Run(c, maxSize, events).files, split.closed, split.current, Count(c));
    DroppedAndKept(split.closed, split.current, Count(c));
  }

  lemma CurrentShown(c: Settings, files: Files, closed: seq<seq<string>>, current: seq<string>)
    requires Shows(c, files, closed, current)
    ensures Current in files && files[Current] == current
  {
  }

  lemma DroppedAndKept(closed: seq<seq<string>>, current: seq<string>, n: nat)
    ensures Flat(if n <= |closed| then closed[..|closed| - n] else [])
            + (Flat(if n <= |closed| then closed[|closed| - n..] else closed) + current)
            == Flat(closed) + current
  {
    if n <= |closed| {
      FlatSuffix(closed, |closed| - n);
      hide Flat;
      Text.Regroup(Flat(closed[..|closed| - n]), Flat(closed[|closed| - n..]), current);
    } else {
      FlatNothing();
      hide Flat;
      Nothing(Flat(closed) + current);
    }
  }

  lemma FlatNothing()
    ensures Flat([]) == []
  {
  }
}
