/** The per-client connection limiter: fixed minute and hour windows.
    Times are steady-clock readings in nanoseconds, positive and never going back. */
module RateLimiter {
  import opened Text

  const SECOND: int := 1_000_000_000
  const MINUTE: int := 60 * SECOND
  const HOUR: int := 3600 * SECOND

  /** `start == 0` marks a window that was never opened. */
  datatype Window = Window(count: nat, start: int)

  const UNOPENED := Window(0, 0)

  type Windows = map<string, Window>

  function WindowOf(ws: Windows, ip: string): Window {
    if ip in ws then ws[ip] else UNOPENED
  }

  /** Both entry points restart a window that is unopened or has run out. */
  function Roll(w: Window, now: int, period: int): Window {
    if w.start == 0 || now - w.start >= period then Window(0, now) else w
  }

  /** The window after an increment, and whether the increment was accepted. */
  function Increment(w: Window, max: nat, now: int, period: int): (Window, bool) {
    var r := Roll(w, now, period);
    if max > 0 && r.count >= max then (r, false) else (r.(count := r.count + 1), true)
  }

  datatype Limiter = Limiter(maxMinute: nat, maxHour: nat, minute: Windows, hour: Windows)

  function Fresh(maxMinute: nat, maxHour: nat): Limiter {
    Limiter(maxMinute, maxHour, map[], map[])
  }

  /** An hour window is only looked at when the minute window admits. */
  function Allow(s: Limiter, ip: string, now: int): (Limiter, bool) {
    var m := Roll(WindowOf(s.minute, ip), now, MINUTE);
    var s1 := if s.maxMinute > 0 then s.(minute := s.minute[ip := m]) else s;
    if s.maxMinute > 0 && m.count >= s.maxMinute then
      (s1, false)
    else if s.maxHour > 0 then
      var h := Roll(WindowOf(s.hour, ip), now, HOUR);
      (s1.(hour := s.hour[ip := h]), h.count < s.maxHour)
    else
      (s1, true)
  }

  /** The clock is read once per window. The flag says that no window refused. */
  function Record(s: Limiter, ip: string, minuteNow: int, hourNow: int): (Limiter, bool) {
    var m := Increment(WindowOf(s.minute, ip), s.maxMinute, minuteNow, MINUTE);
    var h := Increment(WindowOf(s.hour, ip), s.maxHour, hourNow, HOUR);
    (Limiter(s.maxMinute, s.maxHour,
             if s.maxMinute > 0 then s.minute[ip := m.0] else s.minute,
             if s.maxHour > 0 then s.hour[ip := h.0] else s.hour),
     (s.maxMinute > 0 ==> m.1) && (s.maxHour > 0 ==> h.1))
  }

  class ConnectionRateLimiter {
    const maxPerMinute: nat
    const maxPerHour: nat
    var minuteWindows: Windows
    var hourWindows: Windows

    function View(): Limiter
      reads this
    {
      Limiter(maxPerMinute, maxPerHour, minuteWindows, hourWindows)
    }

    constructor (maxPerMinute: nat, maxPerHour: nat)
      ensures View() == Fresh(maxPerMinute, maxPerHour)
    {
      this.maxPerMinute := maxPerMinute;
      this.maxPerHour := maxPerHour;
      minuteWindows := map[];
      hourWindows := map[];
    }

    method AllowConnection(ip: string, now: int) returns (allowed: bool)
      modifies this
      ensures (View(), allowed) == Allow(old(View()), ip, now)
    {
      if maxPerMinute == 0 && maxPerHour == 0 {
        return true;
      }
      if maxPerMinute > 0 {
        var minute := WindowOf(minuteWindows, ip);
        if minute.start == 0 || now - minute.start >= MINUTE {
          minute := Window(0, now);
        }
        minuteWindows := minuteWindows[ip := minute];
        if minute.count >= maxPerMinute {
          return false;
        }
      }
      if maxPerHour > 0 {
        var hour := WindowOf(hourWindows, ip);
        if hour.start == 0 || now - hour.start >= HOUR {
          hour := Window(0, now);
        }
        hourWindows := hourWindows[ip := hour];
        if hour.count >= maxPerHour {
          return false;
        }
      }
      return true;
    }

    method RecordConnection(ip: string, minuteNow: int, hourNow: int)
      modifies this
      ensures View() == Record(old(View()), ip, minuteNow, hourNow).0
    {
      if maxPerMinute == 0 && maxPerHour == 0 {
        return;
      }
      if maxPerMinute > 0 {
        var w, _ := IncrementWindow(WindowOf(minuteWindows, ip), maxPerMinute, minuteNow, MINUTE);
        minuteWindows := minuteWindows[ip := w];
      }
      if maxPerHour > 0 {
        var w, _ := IncrementWindow(WindowOf(hourWindows, ip), maxPerHour, hourNow, HOUR);
        hourWindows := hourWindows[ip := w];
      }
    }

    static method IncrementWindow(window: Window, maxCount: nat, now: int, period: int)
      returns (w: Window, accepted: bool)
      ensures (w, accepted) == Increment(window, maxCount, now, period)
    {
      w := window;
      if w.start == 0 || now - w.start >= period {
        w := Window(0, now);
      }
      if maxCount > 0 && w.count >= maxCount {
        return w, false;
      }
      w := w.(count := w.count + 1);
      return w, true;
    }
  }

  // ---------- runs of the accept thread ----------

  /** One pass of the accept loop: the limiter is asked at `now`; when it admits and the
      pool is not `full`, the connection is recorded a little later. */
  datatype Attempt = Attempt(ip: string, now: int, full: bool, minuteNow: int, hourNow: int)

  predicate Recorded(s: Limiter, e: Attempt) {
    Allow(s, e.ip, e.now).1 && !e.full
  }

  function Step(s: Limiter, e: Attempt): Limiter {
    var a := Allow(s, e.ip, e.now);
    if a.1 && !e.full then Record(a.0, e.ip, e.minuteNow, e.hourNow).0 else a.0
  }

  function Run(s: Limiter, es: seq<Attempt>): Limiter {
    if es == [] then s else Step(Run(s, es[..|es|-1]), es[|es|-1])
  }

  /** The attempts that were recorded, in order. */
  function Log(s: Limiter, es: seq<Attempt>): seq<Attempt> {
    if es == [] then []
    else
      var e := es[|es|-1];
      var log := Log(s, es[..|es|-1]);
      if Recorded(Run(s, es[..|es|-1]), e) then log + [e] else log
  }

  /** The clock is positive and never goes back, within an attempt and between attempts. */
  ghost predicate Timed(es: seq<Attempt>) {
    && (forall i :: 0 <= i < |es| ==> 0 < es[i].now <= es[i].minuteNow <= es[i].hourNow)
    && (forall i, j :: 0 <= i < j < |es| ==> es[i].hourNow <= es[j].now)
  }

  function MinuteTimes(log: seq<Attempt>, ip: string): seq<int> {
    if log == [] then []
    else
      var e := log[|log|-1];
      var ts := MinuteTimes(log[..|log|-1], ip);
      if e.ip == ip then ts + [e.minuteNow] else ts
  }

  function HourTimes(log: seq<Attempt>, ip: string): seq<int> {
    if log == [] then []
    else
      var e := log[|log|-1];
      var ts := HourTimes(log[..|log|-1], ip);
      if e.ip == ip then ts + [e.hourNow] else ts
  }

  /** How many of the times lie in the half-open interval from `lo` to `hi`. */
  function Count(ts: seq<int>, lo: int, hi: int): nat {
    if ts == [] then 0
    else Count(ts[..|ts|-1], lo, hi) + if lo <= ts[|ts|-1] < hi then 1 else 0
  }

  lemma {:induction false} CountAppend(ts: seq<int>, t: int, lo: int, hi: int)
    ensures Count(ts + [t], lo, hi) == Count(ts, lo, hi) + if lo <= t < hi then 1 else 0
  {
    assert (ts + [t])[..|ts|] == ts;
  }

  ghost predicate Before(ts: seq<int>, end: int) {
    forall i :: 0 <= i < |ts| ==> ts[i] < end
  }

  lemma {:induction false} CountCovered(ts: seq<int>, a: int, b: int, c: int, d: int, e: int)
    requires c <= a && (b <= e || Before(ts, e))
    ensures Count(ts, a, b) <= Count(ts, c, d) + Count(ts, d, e)
  {
    if ts != [] {
      CountCovered(ts[..|ts|-1], a, b, c, d, e);
    }
  }

  lemma {:induction false} CountBeyond(ts: seq<int>, lo: int, hi: int)
    requires Before(ts, lo) || hi <= lo
    ensures Count(ts, lo, hi) == 0
  {
    if ts != [] {
      CountBeyond(ts[..|ts|-1], lo, hi);
    }
  }

  /** The number of times in the half-open period that begins at `from`. */
  function Held(ts: seq<int>, from: int, period: int): nat {
    Count(ts, from, from + period)
  }

  /** What a window keeps: it counts the connections recorded since it was opened, the
      period before it was opened holds at most `max`, any period holds at most `2 * max`. */
  ghost predicate Keeps(w: Window, ts: seq<int>, max: nat, period: int, now: int) {
    && w.start <= now
    && Before(ts, w.start + period) && Before(ts, now + 1)
    && w.count == Held(ts, w.start, period) <= max
    && Held(ts, w.start - period, period) <= max
    && (forall from :: Held(ts, from, period) <= 2 * max)
    && (w.start == 0 ==> ts == [])
  }

  lemma RollKeeps(w: Window, ts: seq<int>, max: nat, period: int, was: int, now: int)
    requires Keeps(w, ts, max, period, was) && was <= now && 0 < now && period > 0
    ensures Keeps(Roll(w, now, period), ts, max, period, now)
  {
    if Roll(w, now, period) != w && ts != [] {
      CountBeyond(ts, now, now + period);
      CountCovered(ts, now - period, now, w.start, w.start, w.start + period);
      CountBeyond(ts, w.start, w.start);
    }
  }

  lemma KeepsLater(w: Window, ts: seq<int>, max: nat, period: int, was: int, now: int)
    requires Keeps(w, ts, max, period, was) && was <= now
    ensures Keeps(w, ts, max, period, now)
  {
  }

  /** An increment is refused exactly when there is a limit, the window still runs, and the limit is used up, and
      so no number of increments takes a count past its limit. */
  lemma RefusedIff(w: Window, max: nat, now: int, period: int)
    ensures var (after, ok) := Increment(w, max, now, period);
            var runs := w.start != 0 && now < w.start + period;
            && (!ok <==> max > 0 && runs && w.count >= max)
            && after.start == (if runs then w.start else now)
            && after.count == (if runs then w.count else 0) + (if ok then 1 else 0)
            && (0 < max && w.count <= max ==> after.count <= max)
  {
  }

  lemma IncrementKeeps(w: Window, ts: seq<int>, max: nat, period: int, was: int, now: int)
    requires Keeps(w, ts, max, period, was) && was <= now && 0 < now && period > 0
    requires w.count < max
    ensures Increment(w, max, now, period).1
    ensures Keeps(Increment(w, max, now, period).0, ts + [now], max, period, now)
  {
    RollKeeps(w, ts, max, period, was, now);
    var r := Roll(w, now, period);
    CountAppend(ts, now, r.start, r.start + period);
    CountAppend(ts, now, r.start - period, r.start);
    forall from
      ensures Held(ts + [now], from, period) <= 2 * max
    {
      CountAppend(ts, now, from, from + period);
      assert Held(ts, from, period) <= 2 * max;
      if from <= now < from + period {
        CountCovered(ts, from, from + period, r.start - period, r.start, r.start + period);
      }
    }
  }

  ghost predicate Invariant(s: Limiter, log: seq<Attempt>, now: int) {
    && (s.maxMinute > 0 ==>
          forall ip :: Keeps(WindowOf(s.minute, ip), MinuteTimes(log, ip), s.maxMinute, MINUTE, now))
    && (s.maxHour > 0 ==>
          forall ip :: Keeps(WindowOf(s.hour, ip), HourTimes(log, ip), s.maxHour, HOUR, now))
  }

  lemma AllowKeeps(s: Limiter, log: seq<Attempt>, was: int, ip: string, now: int)
    requires Invariant(s, log, was) && was <= now && 0 < now
    ensures Invariant(Allow(s, ip, now).0, log, now)
    ensures Allow(s, ip, now).1 ==> HasRoom(Allow(s, ip, now).0, ip)
  {
    hide Keeps, Roll, MinuteTimes, HourTimes;
    var s' := Allow(s, ip, now).0;
    forall other | s.maxMinute > 0
      ensures Keeps(WindowOf(s'.minute, other), MinuteTimes(log, other), s.maxMinute, MINUTE, now)
    {
      RollKeeps(WindowOf(s.minute, other), MinuteTimes(log, other), s.maxMinute, MINUTE, was, now);
      KeepsLater(WindowOf(s.minute, other), MinuteTimes(log, other), s.maxMinute, MINUTE, was, now);
    }
    forall other | s.maxHour > 0
      ensures Keeps(WindowOf(s'.hour, other), HourTimes(log, other), s.maxHour, HOUR, now)
    {
      RollKeeps(WindowOf(s.hour, other), HourTimes(log, other), s.maxHour, HOUR, was, now);
      KeepsLater(WindowOf(s.hour, other), HourTimes(log, other), s.maxHour, HOUR, was, now);
    }
  }

  /** Every configured window of the client can take one more. */
  predicate HasRoom(s: Limiter, ip: string) {
    && (s.maxMinute > 0 ==> WindowOf(s.minute, ip).count < s.maxMinute)
    && (s.maxHour > 0 ==> WindowOf(s.hour, ip).count < s.maxHour)
  }

  lemma LogAppend(log: seq<Attempt>, e: Attempt, ip: string)
    ensures MinuteTimes(log + [e], ip)
            == if e.ip == ip then MinuteTimes(log, ip) + [e.minuteNow] else MinuteTimes(log, ip)
    ensures HourTimes(log + [e], ip)
            == if e.ip == ip then HourTimes(log, ip) + [e.hourNow] else HourTimes(log, ip)
  {
    assert (log + [e])[..|log|] == log;
  }

  lemma RecordKeeps(s: Limiter, log: seq<Attempt>, was: int, e: Attempt)
    requires Invariant(s, log, was) && HasRoom(s, e.ip)
    requires was <= e.minuteNow <= e.hourNow && 0 < e.minuteNow
    ensures Record(s, e.ip, e.minuteNow, e.hourNow).1
    ensures Invariant(Record(s, e.ip, e.minuteNow, e.hourNow).0, log + [e], e.hourNow)
  {
    var s' := Record(s, e.ip, e.minuteNow, e.hourNow).0;
    if s.maxMinute > 0 {
      IncrementKeeps(WindowOf(s.minute, e.ip), MinuteTimes(log, e.ip), s.maxMinute, MINUTE, was, e.minuteNow);
      forall ip
        ensures Keeps(WindowOf(s'.minute, ip), MinuteTimes(log + [e], ip), s.maxMinute, MINUTE, e.hourNow)
      {
        LogAppend(log, e, ip);
        if ip == e.ip {
          KeepsLater(WindowOf(s'.minute, ip), MinuteTimes(log + [e], ip), s.maxMinute, MINUTE, e.minuteNow, e.hourNow);
        } else {
          KeepsLater(WindowOf(s.minute, ip), MinuteTimes(log, ip), s.maxMinute, MINUTE, was, e.hourNow);
        }
      }
    }
    if s.maxHour > 0 {
      IncrementKeeps(WindowOf(s.hour, e.ip), HourTimes(log, e.ip), s.maxHour, HOUR, was, e.hourNow);
      forall ip
        ensures Keeps(WindowOf(s'.hour, ip), HourTimes(log + [e], ip), s.maxHour, HOUR, e.hourNow)
      {
        LogAppend(log, e, ip);
        if ip != e.ip {
          KeepsLater(WindowOf(s.hour, ip), HourTimes(log, ip), s.maxHour, HOUR, was, e.hourNow);
        }
      }
    }
  }

  /** The reading at which the run so far ended. */
  function End(es: seq<Attempt>): int {
    if es == [] then 0 else es[|es|-1].hourNow
  }

  lemma NothingYet(maxMinute: nat, maxHour: nat)
    ensures Invariant(Fresh(maxMinute, maxHour), [], 0)
  {
  }

  lemma InvariantLater(s: Limiter, log: seq<Attempt>, was: int, now: int)
    requires Invariant(s, log, was) && was <= now
    ensures Invariant(s, log, now)
  {
  }

  lemma {:induction false} RunKeeps(maxMinute: nat, maxHour: nat, es: seq<Attempt>)
    requires Timed(es)
    ensures Invariant(Run(Fresh(maxMinute, maxHour), es), Log(Fresh(maxMinute, maxHour), es), End(es))
  {
    hide Invariant, Allow, Record, HasRoom;
    var s0 := Fresh(maxMinute, maxHour);
    if es == [] {
      NothingYet(maxMinute, maxHour);
    } else {
      var before, e := es[..|es|-1], es[|es|-1];
      RunKeeps(maxMinute, maxHour, before);
      var s, log := Run(s0, before), Log(s0, before);
      assert End(before) <= e.now;
      AllowKeeps(s, log, End(before), e.ip, e.now);
      if Recorded(s, e) {
        RecordKeeps(Allow(s, e.ip, e.now).0, log, e.now, e);
      } else {
        InvariantLater(Allow(s, e.ip, e.now).0, log, e.now, e.hourNow);
      }
    }
  }

  /** In any half-open minute and any half-open hour a client is recorded at most twice the
      configured number of times. */
  lemma SlidingBound(maxMinute: nat, maxHour: nat, es: seq<Attempt>, ip: string, from: int)
    requires Timed(es)
    ensures var log := Log(Fresh(maxMinute, maxHour), es);
            && (maxMinute > 0 ==> Held(MinuteTimes(log, ip), from, MINUTE) <= 2 * maxMinute)
            && (maxHour > 0 ==> Held(HourTimes(log, ip), from, HOUR) <= 2 * maxHour)
  {
    RunKeeps(maxMinute, maxHour, es);
    RunLimits(Fresh(maxMinute, maxHour), es);
  }

  lemma RunLimits(s: Limiter, es: seq<Attempt>)
    ensures Run(s, es).maxMinute == s.maxMinute && Run(s, es).maxHour == s.maxHour
  {
  }

  /** No window ever counts more than its limit, and a connection that was allowed is never
      refused when it is recorded. */
  lemma NeverRefusedAfterAllow(maxMinute: nat, maxHour: nat, es: seq<Attempt>, e: Attempt)
    requires Timed(es + [e])
    ensures var s := Run(Fresh(maxMinute, maxHour), es);
            && (forall ip :: maxMinute > 0 ==> WindowOf(s.minute, ip).count <= maxMinute)
            && (forall ip :: maxHour > 0 ==> WindowOf(s.hour, ip).count <= maxHour)
            && (Allow(s, e.ip, e.now).1 ==>
                  Record(Allow(s, e.ip, e.now).0, e.ip, e.minuteNow, e.hourNow).1)
  {
    var s0 := Fresh(maxMinute, maxHour);
    assert Timed(es) by {
      assert forall i :: 0 <= i < |es| ==> (es + [e])[i] == es[i];
    }
    assert (es + [e])[|es|] == e;
    assert End(es) <= e.now by {
      if es != [] {
        assert (es + [e])[|es|-1] == es[|es|-1];
      }
    }
    RunKeeps(maxMinute, maxHour, es);
    RunLimits(s0, es);
    AllowKeeps(Run(s0, es), Log(s0, es), End(es), e.ip, e.now);
    if Allow(Run(s0, es), e.ip, e.now).1 {
      RecordKeeps(Allow(Run(s0, es), e.ip, e.now).0, Log(s0, es), e.now, e);
    }
  }

  /** A limit of zero is off: no window is kept for it, and it refuses nobody. */
  lemma {:induction false} OffKeepsNothing(maxMinute: nat, maxHour: nat, es: seq<Attempt>, ip: string, now: int)
    ensures maxMinute == 0 ==> Run(Fresh(maxMinute, maxHour), es).minute == map[]
    ensures maxHour == 0 ==> Run(Fresh(maxMinute, maxHour), es).hour == map[]
    ensures maxMinute == 0 && maxHour == 0 ==> Allow(Run(Fresh(maxMinute, maxHour), es), ip, now).1
  {
    RunLimits(Fresh(maxMinute, maxHour), es);
    if es != [] {
      OffKeepsNothing(maxMinute, maxHour, es[..|es|-1], ip, now);
      RunLimits(Fresh(maxMinute, maxHour), es[..|es|-1]);
      hide Roll, Increment;
    }
  }

  /** An attempt that the minute limit refuses does not touch the hour window, and one that is allowed is
      counted only when it is recorded. */
  lemma RefusedByMinute(s: Limiter, ip: string, now: int)
    requires s.maxMinute > 0
    ensures Roll(WindowOf(s.minute, ip), now, MINUTE).count >= s.maxMinute ==>
              !Allow(s, ip, now).1 && Allow(s, ip, now).0.hour == s.hour
    ensures WindowOf(Allow(s, ip, now).0.minute, ip).count <= WindowOf(s.minute, ip).count
    ensures WindowOf(Allow(s, ip, now).0.hour, ip).count <= WindowOf(s.hour, ip).count
  {
  }

  // ---------- clients do not affect each other ----------

  function Only(es: seq<Attempt>, ip: string): seq<Attempt> {
    if es == [] then []
    else if es[|es|-1].ip == ip then Only(es[..|es|-1], ip) + [es[|es|-1]]
    else Only(es[..|es|-1], ip)
  }

  /** The two limiters treat this client alike. */
  ghost predicate Alike(s: Limiter, t: Limiter, ip: string) {
    && s.maxMinute == t.maxMinute && s.maxHour == t.maxHour
    && WindowOf(s.minute, ip) == WindowOf(t.minute, ip)
    && WindowOf(s.hour, ip) == WindowOf(t.hour, ip)
  }

  lemma StepAlike(s: Limiter, t: Limiter, e: Attempt)
    requires Alike(s, t, e.ip)
    ensures Alike(Step(s, e), Step(t, e), e.ip)
    ensures Recorded(s, e) == Recorded(t, e)
  {
    var a, b := Allow(s, e.ip, e.now), Allow(t, e.ip, e.now);
    assert a.1 == b.1 && Alike(a.0, b.0, e.ip);
  }

  lemma StepElsewhere(s: Limiter, e: Attempt, ip: string)
    requires e.ip != ip
    ensures Alike(s, Step(s, e), ip)
  {
    var a := Allow(s, e.ip, e.now);
    assert Alike(s, a.0, ip);
  }

  lemma Unfold(s: Limiter, es: seq<Attempt>, e: Attempt)
    ensures Run(s, es + [e]) == Step(Run(s, es), e)
    ensures Log(s, es + [e]) == if Recorded(Run(s, es), e) then Log(s, es) + [e] else Log(s, es)
  {
    assert (es + [e])[..|es|] == es;
  }

  /** The two runs leave this client's windows alike and recorded the same for it. */
  ghost predicate AlikeRuns(s: Limiter, es: seq<Attempt>, fs: seq<Attempt>, ip: string) {
    Alike(Run(s, es), Run(s, fs), ip) && Only(Log(s, es), ip) == Log(s, fs)
  }

  lemma OwnAttempt(s: Limiter, es: seq<Attempt>, fs: seq<Attempt>, e: Attempt)
    requires AlikeRuns(s, es, fs, e.ip)
    ensures AlikeRuns(s, es + [e], fs + [e], e.ip)
  {
    Unfold(s, es, e);
    Unfold(s, fs, e);
    StepAlike(Run(s, es), Run(s, fs), e);
    OnlyAppend(Log(s, es), e, e.ip);
  }

  lemma OthersAttempt(s: Limiter, es: seq<Attempt>, fs: seq<Attempt>, e: Attempt, ip: string)
    requires AlikeRuns(s, es, fs, ip) && e.ip != ip
    ensures AlikeRuns(s, es + [e], fs, ip)
  {
    Unfold(s, es, e);
    StepElsewhere(Run(s, es), e, ip);
    OnlyAppend(Log(s, es), e, ip);
  }

  /** Deleting every other client's attempts leaves a client's windows and its recorded
      attempts as they were, */
  lemma {:induction false} ClientsIndependent(s: Limiter, es: seq<Attempt>, ip: string)
    ensures AlikeRuns(s, es, Only(es, ip), ip)
  {
    if es != [] {
      var before, e := es[..|es|-1], es[|es|-1];
      assert es == before + [e];
      ClientsIndependent(s, before, ip);
      if e.ip == ip {
        OwnAttempt(s, before, Only(before, ip), e);
      } else {
        OthersAttempt(s, before, Only(before, ip), e, ip);
      }
    }
  }

  /** and so every later decision about it. */
  lemma DecisionsIndependent(s: Limiter, es: seq<Attempt>, ip: string, now: int)
    ensures Allow(Run(s, es), ip, now).1 == Allow(Run(s, Only(es, ip)), ip, now).1
  {
    ClientsIndependent(s, es, ip);
  }

  lemma OnlyAppend(log: seq<Attempt>, e: Attempt, ip: string)
    ensures Only(log + [e], ip) == if e.ip == ip then Only(log, ip) + [e] else Only(log, ip)
  {
    assert (log + [e])[..|log|] == log;
  }

  // ---------- each limit also bounds the other's interval ----------

  lemma {:induction false} LogFrom(s: Limiter, es: seq<Attempt>)
    ensures forall e :: e in Log(s, es) ==> e in es
  {
    if es != [] {
      LogFrom(s, es[..|es|-1]);
    }
  }

  lemma {:induction false} MinuteBelowHour(log: seq<Attempt>, ip: string, from: int)
    requires forall e :: e in log ==> e.minuteNow <= e.hourNow < from + HOUR
    ensures Held(MinuteTimes(log, ip), from, MINUTE) <= Held(HourTimes(log, ip), from, HOUR)
  {
    if log != [] {
      var before, e := log[..|log|-1], log[|log|-1];
      assert log == before + [e];
      MinuteBelowHour(before, ip, from);
      LogAppend(before, e, ip);
      CountAppend(MinuteTimes(before, ip), e.minuteNow, from, from + MINUTE);
      CountAppend(HourTimes(before, ip), e.hourNow, from, from + HOUR);
    }
  }

  lemma TimedMore(es: seq<Attempt>, e: Attempt)
    requires Timed(es) && End(es) <= e.now && 0 < e.now <= e.minuteNow <= e.hourNow
    ensures Timed(es + [e])
  {
    forall i | 0 <= i < |es| ensures es[i].hourNow <= e.now {
      assert i == |es| - 1 || es[i].hourNow <= es[|es|-1].now;
    }
  }

  lemma TimedFront(es: seq<Attempt>)
    requires Timed(es) && es != []
    ensures Timed(es[..|es|-1]) && End(es[..|es|-1]) <= es[|es|-1].now
    ensures forall e :: e in es[..|es|-1] ==> e.minuteNow <= e.hourNow <= es[|es|-1].now
  {
  }

  /** Any minute holds at most twice the hour limit, too. */
  lemma {:induction false} MinuteByHourLimit(maxMinute: nat, maxHour: nat, es: seq<Attempt>, ip: string, from: int)
    requires Timed(es) && maxHour > 0
    ensures Held(MinuteTimes(Log(Fresh(maxMinute, maxHour), es), ip), from, MINUTE) <= 2 * maxHour
  {
    if es != [] {
      var s, before, e := Fresh(maxMinute, maxHour), es[..|es|-1], es[|es|-1];
      assert es == before + [e];
      TimedFront(es);
      MinuteByHourLimit(maxMinute, maxHour, before, ip, from);
      hide Allow, Timed, Run, Log, MinuteTimes, HourTimes, Count;
      Unfold(s, before, e);
      LogAppend(Log(s, before), e, ip);
      CountAppend(MinuteTimes(Log(s, before), ip), e.minuteNow, from, from + MINUTE);
      if Recorded(Run(s, before), e) && e.ip == ip && from <= e.minuteNow < from + MINUTE {
        LastInMinute(maxMinute, maxHour, before, e, from);
      }
    }
  }

  /** What precedes the last connection of a minute was recorded within the minute, so the hour
      limiter, had it read the clock with the minute limiter, would have counted them all. */
  lemma LastInMinute(maxMinute: nat, maxHour: nat, es: seq<Attempt>, e: Attempt, from: int)
    requires Timed(es) && End(es) <= e.now && 0 < e.now <= e.minuteNow && from <= e.minuteNow < from + MINUTE
    requires forall x :: x in es ==> x.minuteNow <= x.hourNow <= e.now
    requires maxHour > 0 && Recorded(Run(Fresh(maxMinute, maxHour), es), e)
    ensures Held(MinuteTimes(Log(Fresh(maxMinute, maxHour), es), e.ip), from, MINUTE) + 1 <= 2 * maxHour
  {
    var s, log := Fresh(maxMinute, maxHour), Log(Fresh(maxMinute, maxHour), es);
    var same := Attempt(e.ip, e.now, false, e.minuteNow, e.minuteNow);
    hide Allow, Run, Log, MinuteTimes, HourTimes, Count;
    TimedMore(es, same);
    Unfold(s, es, same);
    SlidingBound(maxMinute, maxHour, es + [same], e.ip, from);
    LogAppend(log, same, e.ip);
    CountAppend(HourTimes(log, e.ip), e.minuteNow, from, from + HOUR);
    LogFrom(s, es);
    MinuteBelowHour(log, e.ip, from);
  }

  /** How many of the times lie above `a`. */
  function Above(ts: seq<int>, a: int): nat {
    if ts == [] then 0 else Above(ts[..|ts|-1], a) + if ts[|ts|-1] > a then 1 else 0
  }

  lemma {:induction false} AboveSplit(ts: seq<int>, n: nat, a: int, b: int)
    requires n <= |ts| && a <= b
    ensures Above(ts, b) <= Above(ts[..n], a) + |ts| - n
  {
    if n < |ts| {
      assert ts[..|ts|-1][..n] == ts[..n];
      AboveSplit(ts[..|ts|-1], n, a, b);
    } else {
      assert ts[..n] == ts;
      AboveFewer(ts, a, b);
    }
  }

  lemma {:induction false} AboveFewer(ts: seq<int>, a: int, b: int)
    requires a <= b
    ensures Above(ts, b) <= Above(ts, a)
  {
    if ts != [] {
      AboveFewer(ts[..|ts|-1], a, b);
    }
  }

  lemma {:induction false} AboveNone(ts: seq<int>, a: int)
    requires forall i :: 0 <= i < |ts| ==> ts[i] <= a
    ensures Above(ts, a) == 0
  {
    if ts != [] {
      AboveNone(ts[..|ts|-1], a);
    }
  }

  lemma {:induction false} CountBelowAbove(ts: seq<int>, lo: int, hi: int)
    ensures Count(ts, lo, hi) <= Above(ts, lo - 1)
  {
    if ts != [] {
      CountBelowAbove(ts[..|ts|-1], lo, hi);
    }
  }

  function Minutes(k: nat): int {
    k * MINUTE
  }

  /** Back from the opening of a window, `k` minutes hold at most `k * max` of the times recorded
      before it was opened. */
  ghost predicate Sparse(ts: seq<int>, start: int, max: nat) {
    forall k: nat :: Above(ts, start - Minutes(k)) <= k * max
  }

  /** Any `k` minutes hold at most `k + 1` windows' worth. */
  ghost predicate Spaced(ts: seq<int>, max: nat) {
    forall k: nat, from: int :: Held(ts, from, Minutes(k)) <= (k + 1) * max
  }

  /** What a minute window keeps about times that are read no earlier than its own. */
  ghost predicate Trail(w: Window, ts: seq<int>, max: nat, now: int) {
    && w.count <= |ts| && w.count <= max && w.start <= now
    && (forall i :: 0 <= i < |ts| ==> ts[i] <= now)
    && (w.start == 0 ==> ts == [])
    && Sparse(ts[..|ts| - w.count], w.start, max) && Spaced(ts, max)
  }

  lemma TrailLater(w: Window, ts: seq<int>, max: nat, was: int, now: int)
    requires Trail(w, ts, max, was) && was <= now
    ensures Trail(w, ts, max, now)
  {
  }

  lemma RollTrail(w: Window, ts: seq<int>, max: nat, was: int, now: int)
    requires Trail(w, ts, max, was) && was <= now && 0 < now
    ensures Trail(Roll(w, now, MINUTE), ts, max, now)
  {
    if Roll(w, now, MINUTE) != w {
      assert ts[..|ts|] == ts;
      forall k: nat ensures Above(ts, now - Minutes(k)) <= k * max {
        if ts == [] || k == 0 {
          AboveNone(ts, now - Minutes(k));
        } else {
          AboveSplit(ts, |ts| - w.count, w.start - Minutes(k - 1), now - Minutes(k));
          assert Above(ts[..|ts| - w.count], w.start - Minutes(k - 1)) <= (k - 1) * max;
        }
      }
    }
  }

  lemma IncrementTrail(w: Window, ts: seq<int>, max: nat, was: int, now: int, later: int)
    requires Trail(w, ts, max, was) && was <= now <= later && 0 < now
    requires w.count < max
    ensures Trail(Increment(w, max, now, MINUTE).0, ts + [later], max, later)
  {
    RollTrail(w, ts, max, was, now);
    var r := Roll(w, now, MINUTE);
    var old', more := ts[..|ts| - r.count], ts + [later];
    assert more[..|more| - r.count - 1] == old';
    forall k: nat, from: int ensures Held(more, from, Minutes(k)) <= (k + 1) * max {
      CountAppend(ts, later, from, from + Minutes(k));
      assert Held(ts, from, Minutes(k)) <= (k + 1) * max;
      if from <= later < from + Minutes(k) {
        CountBelowAbove(more, from, from + Minutes(k));
        AboveSplit(more, |old'|, r.start - Minutes(k), from - 1);
        assert Above(old', r.start - Minutes(k)) <= k * max;
      }
    }
  }

  lemma {:induction false} RunTrail(maxMinute: nat, maxHour: nat, es: seq<Attempt>, ip: string)
    requires Timed(es) && maxMinute > 0
    ensures var s := Fresh(maxMinute, maxHour);
            Trail(WindowOf(Run(s, es).minute, ip), HourTimes(Log(s, es), ip), maxMinute, End(es))
  {
    var s := Fresh(maxMinute, maxHour);
    if es == [] {
      NoTrail(maxMinute);
    } else {
      var before, e := es[..|es|-1], es[|es|-1];
      assert es == before + [e];
      TimedFront(es);
      RunTrail(maxMinute, maxHour, before, ip);
      RunLimits(s, before);
      hide Timed, Run, Log, HourTimes, Trail;
      Unfold(s, before, e);
      StepTrail(Run(s, before), Log(s, before), e, ip, End(before));
    }
  }

  lemma NoTrail(max: nat)
    ensures Trail(UNOPENED, [], max, 0)
  {
    forall k: nat ensures Above([], 0 - Minutes(k)) <= k * max {
    }
    forall k: nat, from: int ensures Held([], from, Minutes(k)) <= (k + 1) * max {
    }
  }

  /** A client's minute window after a step. */
  lemma StepMinute(s: Limiter, e: Attempt, ip: string)
    requires s.maxMinute > 0
    ensures var w := WindowOf(s.minute, ip);
            var r := Roll(w, e.now, MINUTE);
            WindowOf(Step(s, e).minute, ip)
            == if e.ip != ip then w
               else if Recorded(s, e) then Increment(r, s.maxMinute, e.minuteNow, MINUTE).0 else r
    ensures e.ip == ip && Recorded(s, e) ==> Roll(WindowOf(s.minute, ip), e.now, MINUTE).count < s.maxMinute
  {
    hide Roll, Increment;
  }

  lemma StepTrail(s: Limiter, log: seq<Attempt>, e: Attempt, ip: string, was: int)
    requires s.maxMinute > 0 && was <= e.now && 0 < e.now <= e.minuteNow <= e.hourNow
    requires Trail(WindowOf(s.minute, ip), HourTimes(log, ip), s.maxMinute, was)
    ensures Trail(WindowOf(Step(s, e).minute, ip), HourTimes(if Recorded(s, e) then log + [e] else log, ip),
            s.maxMinute, e.hourNow)
  {
    hide Trail, HourTimes, Roll, Increment, Step, Recorded, WindowOf;
    var w, ts := WindowOf(s.minute, ip), HourTimes(log, ip);
    LogAppend(log, e, ip);
    StepMinute(s, e, ip);
    TrailLater(w, ts, s.maxMinute, was, e.hourNow);
    if e.ip == ip {
      RollTrail(w, ts, s.maxMinute, was, e.now);
      var r := Roll(w, e.now, MINUTE);
      TrailLater(r, ts, s.maxMinute, e.now, e.hourNow);
      if Recorded(s, e) {
        IncrementTrail(r, ts, s.maxMinute, e.now, e.minuteNow, e.hourNow);
      }
    }
  }

  /** Any hour holds at most sixty-one times the minute limit: sixty windows open within it, and one
      was open when it began. */
  lemma HourByMinuteLimit(maxMinute: nat, maxHour: nat, es: seq<Attempt>, ip: string, from: int)
    requires Timed(es) && maxMinute > 0
    ensures Held(HourTimes(Log(Fresh(maxMinute, maxHour), es), ip), from, HOUR) <= 61 * maxMinute
  {
    RunTrail(maxMinute, maxHour, es, ip);
    hide Run, Log, HourTimes, Held, Sparse;
    assert Minutes(60) == HOUR;
  }

  // ---------- how far the limits are exceeded ----------

  /** An attempt whose readings of the clock are all the same. */
  function Instant(ip: string, t: int, full: bool): Attempt {
    Attempt(ip, t, full, t, t)
  }

  function Repeat(e: Attempt, n: nat): seq<Attempt> {
    if n == 0 then [] else Repeat(e, n - 1) + [e]
  }

  /** The client's windows, as far as they are configured, seen at time `t`. */
  ghost predicate Shows(s: Limiter, ip: string, t: int, minute: Window, hour: Window) {
    && (s.maxMinute > 0 ==> Roll(WindowOf(s.minute, ip), t, MINUTE) == minute)
    && (s.maxHour > 0 ==> Roll(WindowOf(s.hour, ip), t, HOUR) == hour)
  }

  /** Both windows are open at `t`. */
  predicate Open(t: int, minute: Window, hour: Window) {
    0 < minute.start <= t < minute.start + MINUTE && 0 < hour.start <= t < hour.start + HOUR
  }

  function Plus(w: Window, n: nat): Window {
    w.(count := w.count + n)
  }

  predicate Room(s: Limiter, minute: Window, hour: Window, n: nat) {
    (s.maxMinute > 0 ==> minute.count + n <= s.maxMinute) && (s.maxHour > 0 ==> hour.count + n <= s.maxHour)
  }

  lemma StepFills(s: Limiter, ip: string, t: int, minute: Window, hour: Window)
    requires Shows(s, ip, t, minute, hour) && Open(t, minute, hour) && Room(s, minute, hour, 1)
    ensures Recorded(s, Instant(ip, t, false))
    ensures Shows(Step(s, Instant(ip, t, false)), ip, t, Plus(minute, 1), Plus(hour, 1))
  {
    var a := Allow(s, ip, t).0;
    assert s.maxMinute > 0 ==> WindowOf(a.minute, ip) == minute;
    assert s.maxHour > 0 ==> WindowOf(a.hour, ip) == hour;
  }

  lemma FillOne(s: Limiter, es: seq<Attempt>, ip: string, t: int, minute: Window, hour: Window)
    requires Shows(Run(s, es), ip, t, minute, hour) && Open(t, minute, hour) && Room(s, minute, hour, 1)
    ensures var e := Instant(ip, t, false);
            Log(s, es + [e]) == Log(s, es) + [e] && Shows(Run(s, es + [e]), ip, t, Plus(minute, 1), Plus(hour, 1))
  {
    var e := Instant(ip, t, false);
    Unfold(s, es, e);
    RunLimits(s, es);
    hide Run, Log, Shows, Allow;
    StepFills(Run(s, es), ip, t, minute, hour);
  }

  /** At one instant inside open windows, attempts are recorded while there is room. */
  lemma {:induction false} RepeatFills(s: Limiter, es: seq<Attempt>, ip: string, t: int, minute: Window, hour: Window,
                                       n: nat)
    requires Shows(Run(s, es), ip, t, minute, hour) && Open(t, minute, hour) && Room(s, minute, hour, n)
    ensures Log(s, es + Repeat(Instant(ip, t, false), n)) == Log(s, es) + Repeat(Instant(ip, t, false), n)
    ensures Shows(Run(s, es + Repeat(Instant(ip, t, false), n)), ip, t, Plus(minute, n), Plus(hour, n))
  {
    hide Repeat, Run, Log, Shows;
    var e := Instant(ip, t, false);
    RepeatMore(es, e, n);
    RepeatMore(Log(s, es), e, n);
    if n > 0 {
      RepeatFills(s, es, ip, t, minute, hour, n - 1);
      FillOne(s, es + Repeat(e, n - 1), ip, t, Plus(minute, n - 1), Plus(hour, n - 1));
    }
  }

  lemma RepeatMore(log: seq<Attempt>, e: Attempt, n: nat)
    ensures n == 0 ==> log + Repeat(e, n) == log
    ensures n > 0 ==> log + Repeat(e, n) == log + Repeat(e, n - 1) + [e]
  {
    if n > 0 {
      Regroup(log, Repeat(e, n - 1), [e]);
    }
  }

  lemma {:induction false} RepeatTimes(log: seq<Attempt>, ip: string, t: int, n: nat, from: int, period: int)
    requires from <= t < from + period
    ensures var more := log + Repeat(Instant(ip, t, false), n);
            && Held(MinuteTimes(more, ip), from, period) == Held(MinuteTimes(log, ip), from, period) + n
            && Held(HourTimes(more, ip), from, period) == Held(HourTimes(log, ip), from, period) + n
  {
    hide Repeat, MinuteTimes, HourTimes, Count;
    var e := Instant(ip, t, false);
    RepeatMore(log, e, n);
    if n > 0 {
      RepeatTimes(log, ip, t, n - 1, from, period);
      var before := log + Repeat(e, n - 1);
      LogAppend(before, e, ip);
      CountAppend(MinuteTimes(before, ip), t, from, from + period);
      CountAppend(HourTimes(before, ip), t, from, from + period);
    }
  }

  lemma {:induction false} RepeatTimed(es: seq<Attempt>, ip: string, t: int, n: nat)
    requires Timed(es) && End(es) <= t && 0 < t
    ensures Timed(es + Repeat(Instant(ip, t, false), n))
    ensures End(es + Repeat(Instant(ip, t, false), n)) <= t
  {
    hide Repeat, Timed;
    var e := Instant(ip, t, false);
    RepeatMore(es, e, n);
    if n > 0 {
      RepeatTimed(es, ip, t, n - 1);
      TimedMore(es + Repeat(e, n - 1), e);
    }
  }

  /** A run that fills the windows `n` times at `t`, as the rest of the lemmas use it. */
  lemma Filled(s: Limiter, es: seq<Attempt>, ip: string, t: int, minute: Window, hour: Window, n: nat, from: int,
               period: int)
    requires Shows(Run(s, es), ip, t, minute, hour) && Open(t, minute, hour) && Room(s, minute, hour, n)
    requires Timed(es) && End(es) <= t && from <= t < from + period
    ensures var more := es + Repeat(Instant(ip, t, false), n);
            && Timed(more) && End(more) <= t && Shows(Run(s, more), ip, t, Plus(minute, n), Plus(hour, n))
            && Held(MinuteTimes(Log(s, more), ip), from, period) == Held(MinuteTimes(Log(s, es), ip), from, period) + n
            && Held(HourTimes(Log(s, more), ip), from, period) == Held(HourTimes(Log(s, es), ip), from, period) + n
  {
    hide Repeat, Timed, Run, Log, Shows, MinuteTimes, HourTimes, Count;
    RepeatFills(s, es, ip, t, minute, hour, n);
    RepeatTimes(Log(s, es), ip, t, n, from, period);
    RepeatTimed(es, ip, t, n);
  }

  /** At a later time a window that holds something is the same or has run out. */
  lemma ShowsLater(s: Limiter, ip: string, t: int, minute: Window, hour: Window, later: int)
    requires Shows(s, ip, t, minute, hour) && Open(t, minute, hour) && t <= later
    requires (minute.start != t || minute.count > 0) && (hour.start != t || hour.count > 0)
    ensures Shows(s, ip, later, Roll(minute, later, MINUTE), Roll(hour, later, HOUR))
  {
  }

  /** Two connections that the full pool then turns away: they open an hour window at `a` and a minute
      window at `b`. */
  function Opening(ip: string, a: int, b: int): seq<Attempt> {
    [Instant(ip, a, true)] + [Instant(ip, b, true)]
  }

  lemma OpeningShows(s: Limiter, ip: string, a: int, b: int, t: int)
    requires s == Fresh(s.maxMinute, s.maxHour) && 0 < a && a + MINUTE <= b < a + HOUR && b <= t < b + MINUTE
    ensures Shows(Run(s, Opening(ip, a, b)), ip, t, Window(0, b), Roll(Window(0, a), t, HOUR))
    ensures Log(s, Opening(ip, a, b)) == [] && Timed(Opening(ip, a, b)) && End(Opening(ip, a, b)) <= t
  {
    var e, f := Instant(ip, a, true), Instant(ip, b, true);
    Unfold(s, [], e);
    assert [] + [e] == [e];
    Unfold(s, [e], f);
    var s1 := Step(s, e);
    assert Run(s, []) == s;
    assert s1.maxMinute > 0 ==> WindowOf(s1.minute, ip) == Window(0, a);
    assert s1.maxHour > 0 ==> WindowOf(s1.hour, ip) == Window(0, a);
  }

  /** How often a window can be filled: the smaller of the limits that are set. */
  function Cap(maxMinute: nat, maxHour: nat): nat {
    if maxMinute > 0 && (maxHour == 0 || maxMinute <= maxHour) then maxMinute else maxHour
  }

  /** Windows filled at their very end, followed by the next windows filled at their very start. */
  function Burst(ip: string, n: nat): seq<Attempt> {
    Opening(ip, 1, HOUR + 1 - MINUTE) + Repeat(Instant(ip, HOUR, false), n) + Repeat(Instant(ip, HOUR + 1, false), n)
  }

  lemma FirstHalf(s: Limiter, ip: string, n: nat)
    requires s == Fresh(s.maxMinute, s.maxHour) && 0 < n && Room(s, Window(0, 0), Window(0, 0), n)
    ensures var es := Opening(ip, 1, HOUR + 1 - MINUTE) + Repeat(Instant(ip, HOUR, false), n);
            && Timed(es) && End(es) <= HOUR
            && Shows(Run(s, es), ip, HOUR + 1, Window(0, HOUR + 1), Window(0, HOUR + 1))
            && Held(MinuteTimes(Log(s, es), ip), HOUR, HOUR) == n && Held(HourTimes(Log(s, es), ip), HOUR, HOUR) == n
            && Held(MinuteTimes(Log(s, es), ip), HOUR, MINUTE) == n
  {
    OpeningShows(s, ip, 1, HOUR + 1 - MINUTE, HOUR);
    hide Repeat, Timed, Run, Log, Shows, Opening;
    var opening, minute, hour := Opening(ip, 1, HOUR + 1 - MINUTE), Window(0, HOUR + 1 - MINUTE), Window(0, 1);
    Filled(s, opening, ip, HOUR, minute, hour, n, HOUR, HOUR);
    Filled(s, opening, ip, HOUR, minute, hour, n, HOUR, MINUTE);
    ShowsLater(Run(s, opening + Repeat(Instant(ip, HOUR, false), n)), ip, HOUR, Plus(minute, n), Plus(hour, n),
      HOUR + 1);
  }

  /** Twice the smaller limit is recorded within one minute, whatever the limits are. */
  lemma SlidingBoundReached(maxMinute: nat, maxHour: nat, ip: string)
    requires maxMinute > 0 || maxHour > 0
    ensures var es := Burst(ip, Cap(maxMinute, maxHour));
            var log := Log(Fresh(maxMinute, maxHour), es);
            && Timed(es)
            && Held(MinuteTimes(log, ip), HOUR, MINUTE) == 2 * Cap(maxMinute, maxHour)
            && Held(HourTimes(log, ip), HOUR, HOUR) == 2 * Cap(maxMinute, maxHour)
  {
    var s, n := Fresh(maxMinute, maxHour), Cap(maxMinute, maxHour);
    FirstHalf(s, ip, n);
    hide Repeat, Timed, Run, Log, Shows, Opening;
    var es := Opening(ip, 1, HOUR + 1 - MINUTE) + Repeat(Instant(ip, HOUR, false), n);
    Filled(s, es, ip, HOUR + 1, Window(0, HOUR + 1), Window(0, HOUR + 1), n, HOUR, HOUR);
    Filled(s, es, ip, HOUR + 1, Window(0, HOUR + 1), Window(0, HOUR + 1), n, HOUR, MINUTE);
  }

  // ---------- the fullest hour ----------

  /** The most that any hour holds: two hour windows or sixty-one minute windows, whichever is less. */
  function HourMost(maxMinute: nat, maxHour: nat): nat {
    if maxMinute == 0 || (maxHour > 0 && 2 * maxHour <= 61 * maxMinute) then 2 * maxHour else 61 * maxMinute
  }

  const TOP: int := 2 * HOUR

  /** Minute window 0 is used just before it runs out at `TOP`, and window `k` from a minute after the one
      before it. */
  function WindowTime(k: nat): int {
    if k == 0 then TOP - 2 else TOP + Minutes(k - 1)
  }

  /** A plan: minute windows of `max` connections each, the first `early` of them all in one hour window
      and the others in the next, which opens between two connections of one minute window. */
  datatype Plan = Plan(max: nat, early: nat, total: nat)

  predicate Feasible(p: Plan) {
    0 < p.max && 2 * p.early <= p.total <= 61 * p.max
  }

  function Turning(p: Plan): int
    requires p.max > 0
  {
    WindowTime(p.early / p.max) + 1
  }

  /** When the connection with number `j` is made. */
  function Moment(p: Plan, j: nat): int
    requires p.max > 0
  {
    WindowTime(j / p.max) + if j < p.early then 0 else 1
  }

  /** When minute window `k` was opened. */
  function OpenedAt(p: Plan, k: nat): int {
    if k == 0 then TOP - MINUTE else WindowTime(k) + if k * p.max < p.early then 0 else 1
  }

  /** The client's windows when that connection is made. */
  function MinuteAt(p: Plan, j: nat): Window
    requires p.max > 0
  {
    Window(j % p.max, OpenedAt(p, j / p.max))
  }

  function HourAt(p: Plan, j: nat): Window
    requires p.max > 0
  {
    if j < p.early then Window(j, Turning(p) - HOUR) else Window(j - p.early, Turning(p))
  }

  function Planned(p: Plan, ip: string, j: nat): seq<Attempt>
    requires p.max > 0
  {
    if j == 0 then Opening(ip, Turning(p) - HOUR, TOP - MINUTE)
    else Planned(p, ip, j - 1) + [Instant(ip, Moment(p, j - 1), false)]
  }

  lemma DivNext(j: nat, max: nat)
    requires max > 0
    ensures j % max + 1 < max ==> (j + 1) / max == j / max && (j + 1) % max == j % max + 1
    ensures j % max + 1 == max ==> (j + 1) / max == j / max + 1 && (j + 1) % max == 0
    ensures j == j / max * max + j % max
  {
    var k, r := j / max, j % max;
    if r + 1 < max {
      DivIs(j + 1, max, k, r + 1);
    } else {
      assert (k + 1) * max == k * max + max;
      DivIs(j + 1, max, k + 1, 0);
    }
  }

  lemma DivIs(n: nat, max: nat, k: nat, r: nat)
    requires r < max && n == k * max + r
    ensures n / max == k && n % max == r
  {
    var d := n / max - k;
    assert d * max == n / max * max - k * max;
    assert n == n / max * max + n % max;
    assert d >= 1 ==> d * max >= max;
    assert d <= -1 ==> d * max + max <= 0;
  }

  lemma DivOrder(a: nat, b: nat, max: nat)
    requires max > 0 && a <= b
    ensures a / max <= b / max
  {
    var d := b / max - a / max;
    assert d * max == b / max * max - a / max * max;
    assert d <= -1 ==> d * max + max <= 0;
  }

  lemma DivBound(n: nat, max: nat, k: nat)
    requires max > 0 && n < k * max
    ensures n / max < k
  {
    var d := n / max - k;
    assert d * max == n / max * max - k * max;
    assert d >= 0 ==> d * max >= 0;
  }

  lemma WindowOrder(a: nat, b: nat)
    requires a <= b
    ensures WindowTime(a) <= WindowTime(b) && (a < b ==> WindowTime(a) + 2 <= WindowTime(b))
  {
    if 0 < a < b {
      assert Minutes(b - 1) == Minutes(a - 1) + (b - a) * MINUTE;
    }
  }

  /** Where the hour turns and which windows are used. */
  lemma PlanTimes(p: Plan, j: nat)
    requires Feasible(p) && j < p.total
    ensures p.early / p.max <= 30 && j / p.max <= 60
    ensures TOP - 1 <= Turning(p) <= TOP + 30 * MINUTE
    ensures TOP - 2 <= Moment(p, j) <= TOP + 59 * MINUTE + 1
    ensures j < p.early <==> Moment(p, j) < Turning(p)
  {
    assert p.early < 31 * p.max && j < 61 * p.max;
    DivBound(p.early, p.max, 31);
    DivBound(j, p.max, 61);
    WindowOrder(p.early / p.max, 30);
    WindowOrder(j / p.max, 60);
    WindowOrder(0, p.early / p.max);
    WindowOrder(0, j / p.max);
    if j < p.early {
      DivOrder(j, p.early, p.max);
      WindowOrder(j / p.max, p.early / p.max);
    } else {
      DivOrder(p.early, j, p.max);
      WindowOrder(p.early / p.max, j / p.max);
    }
  }

  lemma PlanOpen(p: Plan, j: nat)
    requires Feasible(p) && j < p.total
    ensures Open(Moment(p, j), MinuteAt(p, j), HourAt(p, j)) && MinuteAt(p, j).count < p.max
  {
    hide Turning;
    PlanTimes(p, j);
    DivNext(j, p.max);
  }

  lemma WindowNext(p: Plan, k: nat)
    ensures WindowTime(k) + 1 < OpenedAt(p, k) + MINUTE && 0 < OpenedAt(p, k) <= WindowTime(k) + 1
    ensures OpenedAt(p, k) + MINUTE <= OpenedAt(p, k + 1) && WindowTime(k) + 2 <= WindowTime(k + 1)
  {
    WindowOrder(0, k);
    WindowOrder(k, k + 1);
    assert (k + 1) * p.max == k * p.max + p.max;
    assert Minutes(k) == if k == 0 then 0 else Minutes(k - 1) + MINUTE;
  }

  lemma MinuteNext(p: Plan, j: nat)
    requires Feasible(p) && j + 1 < p.total
    ensures Roll(Plus(MinuteAt(p, j), 1), Moment(p, j + 1), MINUTE) == MinuteAt(p, j + 1)
    ensures Moment(p, j) <= Moment(p, j + 1)
  {
    var k := j / p.max;
    DivNext(j, p.max);
    WindowNext(p, k);
    hide WindowTime;
    if j % p.max + 1 == p.max {
      assert j + 1 == (k + 1) * p.max;
      WindowNext(p, k + 1);
    } else {
      hide OpenedAt;
    }
  }

  lemma HourNext(p: Plan, j: nat)
    requires Feasible(p) && j + 1 < p.total
    ensures Roll(Plus(HourAt(p, j), 1), Moment(p, j + 1), HOUR) == HourAt(p, j + 1)
  {
    PlanTimes(p, j);
    PlanTimes(p, j + 1);
    TurningMoment(p);
    hide Turning, Moment;
  }

  lemma TurningMoment(p: Plan)
    requires p.max > 0
    ensures Moment(p, p.early) == Turning(p)
  {
  }

  predicate Allows(s: Limiter, p: Plan) {
    s.maxMinute == p.max && (s.maxHour > 0 ==> p.early <= s.maxHour && p.total - p.early <= s.maxHour)
  }

  /** The first `j` connections of the plan were recorded, and the next one can be. */
  ghost predicate Ready(s: Limiter, p: Plan, ip: string, es: seq<Attempt>, j: nat)
    requires p.max > 0
  {
    && Timed(es) && Held(HourTimes(Log(s, es), ip), TOP - 2, HOUR) == j
    && (j < p.total ==>
          End(es) <= Moment(p, j) && Shows(Run(s, es), ip, Moment(p, j), MinuteAt(p, j), HourAt(p, j)))
  }

  /** The plan can be carried out, connection by connection. */
  lemma {:induction false} PlanRuns(s: Limiter, p: Plan, ip: string, j: nat)
    requires s == Fresh(s.maxMinute, s.maxHour) && Feasible(p) && Allows(s, p) && j <= p.total && 0 < p.total
    ensures Ready(s, p, ip, Planned(p, ip, j), j)
  {
    hide Ready, Allows;
    if j == 0 {
      PlanBegins(s, p, ip);
    } else {
      PlanRuns(s, p, ip, j - 1);
      PlanStep(s, p, Planned(p, ip, j - 1), ip, j - 1);
    }
  }

  lemma PlanBegins(s: Limiter, p: Plan, ip: string)
    requires s == Fresh(s.maxMinute, s.maxHour) && Feasible(p) && 0 < p.total
    ensures Ready(s, p, ip, Planned(p, ip, 0), 0)
  {
    PlanTimes(p, 0);
    FirstWindows(p);
    hide Timed, Run, Log, Shows, Turning, Opening, MinuteAt, HourAt, Moment, Roll;
    OpeningShows(s, ip, Turning(p) - HOUR, TOP - MINUTE, Moment(p, 0));
  }

  lemma FirstWindows(p: Plan)
    requires Feasible(p) && 0 < p.total
    ensures MinuteAt(p, 0) == Window(0, TOP - MINUTE) && Moment(p, 0) < TOP
    ensures HourAt(p, 0) == Roll(Window(0, Turning(p) - HOUR), Moment(p, 0), HOUR)
  {
    PlanTimes(p, 0);
    TurningMoment(p);
    DivIs(0, p.max, 0, 0);
    hide Turning;
  }

  lemma OneMore(s: Limiter, es: seq<Attempt>, ip: string, t: int, minute: Window, hour: Window, from: int)
    requires Shows(Run(s, es), ip, t, minute, hour) && Open(t, minute, hour) && Room(s, minute, hour, 1)
    requires Timed(es) && End(es) <= t && from <= t < from + HOUR
    ensures var more := es + [Instant(ip, t, false)];
            && Timed(more) && End(more) == t && Shows(Run(s, more), ip, t, Plus(minute, 1), Plus(hour, 1))
            && Held(HourTimes(Log(s, more), ip), from, HOUR) == Held(HourTimes(Log(s, es), ip), from, HOUR) + 1
  {
    hide Timed, Run, Log, Shows, HourTimes, MinuteTimes, Count, Room;
    var e := Instant(ip, t, false);
    FillOne(s, es, ip, t, minute, hour);
    LogAppend(Log(s, es), e, ip);
    CountAppend(HourTimes(Log(s, es), ip), t, from, from + HOUR);
    TimedMore(es, e);
  }

  lemma PlanRoom(s: Limiter, p: Plan, j: nat)
    requires Feasible(p) && Allows(s, p) && j < p.total
    ensures Room(s, MinuteAt(p, j), HourAt(p, j), 1)
  {
    PlanOpen(p, j);
    hide Turning, OpenedAt, Open;
  }

  lemma PlanStep(s: Limiter, p: Plan, es: seq<Attempt>, ip: string, j: nat)
    requires s == Fresh(s.maxMinute, s.maxHour) && Feasible(p) && Allows(s, p) && j < p.total
    requires Ready(s, p, ip, es, j)
    ensures Ready(s, p, ip, es + [Instant(ip, Moment(p, j), false)], j + 1)
  {
    hide Timed, Run, Log, Shows, Held, HourTimes, MinuteAt, HourAt, Moment, Turning, Open, Room, Allows, Plus, Roll;
    PlanOpen(p, j);
    PlanRoom(s, p, j);
    PlanTimes(p, j);
    var t, minute, hour := Moment(p, j), MinuteAt(p, j), HourAt(p, j);
    OneMore(s, es, ip, t, minute, hour, TOP - 2);
    if j + 1 < p.total {
      MinuteNext(p, j);
      HourNext(p, j);
      PlusHolds(minute, hour);
      ShowsLater(Run(s, es + [Instant(ip, t, false)]), ip, t, Plus(minute, 1), Plus(hour, 1), Moment(p, j + 1));
    }
  }

  lemma PlusHolds(minute: Window, hour: Window)
    ensures Plus(minute, 1).count > 0 && Plus(hour, 1).count > 0
    ensures forall t :: Open(t, minute, hour) ==> Open(t, Plus(minute, 1), Plus(hour, 1))
  {
  }

  /** The plan for the fullest hour. */
  function Fullest(maxMinute: nat, maxHour: nat): Plan {
    var total := HourMost(maxMinute, maxHour);
    Plan(maxMinute, if maxHour == 0 || total <= maxHour then 0 else total - maxHour, total)
  }

  lemma HourReached(maxMinute: nat, maxHour: nat, ip: string)
    requires maxMinute > 0
    ensures var es := Planned(Fullest(maxMinute, maxHour), ip, HourMost(maxMinute, maxHour));
            && Timed(es)
            && Held(HourTimes(Log(Fresh(maxMinute, maxHour), es), ip), TOP - 2, HOUR) == HourMost(maxMinute, maxHour)
  {
    PlanRuns(Fresh(maxMinute, maxHour), Fullest(maxMinute, maxHour), ip, HourMost(maxMinute, maxHour));
  }

  // ---------- when the limits hold of every interval ----------

  function MinuteHeld(maxMinute: nat, maxHour: nat, es: seq<Attempt>, ip: string, from: int): nat {
    Held(MinuteTimes(Log(Fresh(maxMinute, maxHour), es), ip), from, MINUTE)
  }

  function HourHeld(maxMinute: nat, maxHour: nat, es: seq<Attempt>, ip: string, from: int): nat {
    Held(HourTimes(Log(Fresh(maxMinute, maxHour), es), ip), from, HOUR)
  }

  /** The most that any minute holds is twice the smaller limit: a bound, and it is reached. */
  lemma MinuteMaximum(maxMinute: nat, maxHour: nat, ip: string)
    requires maxMinute > 0 || maxHour > 0
    ensures forall es, from :: Timed(es) ==> MinuteHeld(maxMinute, maxHour, es, ip, from) <= 2 * Cap(maxMinute, maxHour)
    ensures exists es, from :: Timed(es) && MinuteHeld(maxMinute, maxHour, es, ip, from) == 2 * Cap(maxMinute, maxHour)
  {
    hide Timed, Log, MinuteTimes, HourTimes, Held, Burst;
    forall es, from | Timed(es) ensures MinuteHeld(maxMinute, maxHour, es, ip, from) <= 2 * Cap(maxMinute, maxHour) {
      SlidingBound(maxMinute, maxHour, es, ip, from);
      if maxHour > 0 {
        MinuteByHourLimit(maxMinute, maxHour, es, ip, from);
      }
    }
    SlidingBoundReached(maxMinute, maxHour, ip);
    var es := Burst(ip, Cap(maxMinute, maxHour));
    assert Timed(es) && MinuteHeld(maxMinute, maxHour, es, ip, HOUR) == 2 * Cap(maxMinute, maxHour);
  }

  /** The minute limit holds of every minute exactly when the hour limit is set and at most half of
      it. */
  lemma MinuteBoundIff(maxMinute: nat, maxHour: nat)
    requires maxMinute > 0
    ensures (forall es, ip, from :: Timed(es) ==> MinuteHeld(maxMinute, maxHour, es, ip, from) <= maxMinute)
            <==> 0 < maxHour && 2 * maxHour <= maxMinute
  {
    hide Timed, MinuteHeld;
    if 0 < maxHour && 2 * maxHour <= maxMinute {
      forall es, ip: string, from | Timed(es) ensures MinuteHeld(maxMinute, maxHour, es, ip, from) <= maxMinute {
        MinuteMaximum(maxMinute, maxHour, ip);
      }
    } else {
      MinuteMaximum(maxMinute, maxHour, "");
    }
  }

  /** The most that any hour holds: a bound, and it is reached. */
  lemma HourMaximum(maxMinute: nat, maxHour: nat, ip: string)
    requires maxMinute > 0 || maxHour > 0
    ensures forall es, from :: Timed(es) ==> HourHeld(maxMinute, maxHour, es, ip, from) <= HourMost(maxMinute, maxHour)
    ensures exists es, from :: Timed(es) && HourHeld(maxMinute, maxHour, es, ip, from) == HourMost(maxMinute, maxHour)
  {
    hide Timed, Log, MinuteTimes, HourTimes, Held, Burst, Planned;
    forall es, from | Timed(es) ensures HourHeld(maxMinute, maxHour, es, ip, from) <= HourMost(maxMinute, maxHour) {
      SlidingBound(maxMinute, maxHour, es, ip, from);
      if maxMinute > 0 {
        HourByMinuteLimit(maxMinute, maxHour, es, ip, from);
      }
    }
    if maxMinute == 0 {
      SlidingBoundReached(maxMinute, maxHour, ip);
      assert HourHeld(maxMinute, maxHour, Burst(ip, maxHour), ip, HOUR) == 2 * maxHour;
    } else {
      HourReached(maxMinute, maxHour, ip);
      var es := Planned(Fullest(maxMinute, maxHour), ip, HourMost(maxMinute, maxHour));
      assert HourHeld(maxMinute, maxHour, es, ip, TOP - 2) == HourMost(maxMinute, maxHour);
    }
  }

  /** The hour limit holds of every hour exactly when the minute limit is set and the sixty-one
      windows that can fall into an hour do not add up to more. */
  lemma HourBoundIff(maxMinute: nat, maxHour: nat)
    requires maxHour > 0
    ensures (forall es, ip, from :: Timed(es) ==> HourHeld(maxMinute, maxHour, es, ip, from) <= maxHour)
            <==> 0 < maxMinute && 61 * maxMinute <= maxHour
  {
    hide Timed, HourHeld;
    if 0 < maxMinute && 61 * maxMinute <= maxHour {
      forall es, ip: string, from | Timed(es) ensures HourHeld(maxMinute, maxHour, es, ip, from) <= maxHour {
        HourMaximum(maxMinute, maxHour, ip);
      }
    } else {
      HourMaximum(maxMinute, maxHour, "");
    }
  }
}
