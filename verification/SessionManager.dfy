/** Login sessions that expire: created, refreshed, deleted and swept, at times read from a clock. */
module SessionManager {

  type Id = string

  /** Clock ticks in a second. */
  const TICKS: int := 1000000000

  datatype Session = Session(user: string, client: string, createdAt: int, lastActivity: int, timeout: int,
    active: bool)

  type Sessions = map<Id, Session>

  /** A duration in whole seconds, cut towards zero. */
  function Seconds(ticks: int): int {
    if ticks >= 0 then ticks / TICKS else -((-ticks) / TICKS)
  }

  lemma SecondsMonotone(a: int, b: int)
    requires a <= b
    ensures Seconds(a) <= Seconds(b)
  {
  }

  predicate ValidAt(s: Session, now: int) {
    s.active && Seconds(now - s.lastActivity) <= s.timeout
  }

  predicate IsValid(sessions: Sessions, id: Id, now: int) {
    id in sessions && ValidAt(sessions[id], now)
  }

  // ---------- one operation ----------

  datatype Event =
    | Create(id: Id, user: string, client: string, timeout: int, time: int)
    | Touch(id: Id, time: int)
    | Delete(id: Id, time: int)
    | Sweep(time: int)

  function Swept(sessions: Sessions, now: int): Sessions {
    map id | id in sessions && ValidAt(sessions[id], now) :: sessions[id]
  }

  /** A timeout of zero means the default one. */
  function Fresh(e: Event, defaultTimeout: int): Session
    requires e.Create?
  {
    Session(e.user, e.client, e.time, e.time, if e.timeout == 0 then defaultTimeout else e.timeout, true)
  }

  function Step(defaultTimeout: int, sessions: Sessions, e: Event): Sessions {
    match e
    case Create(id, _, _, _, _) => sessions[id := Fresh(e, defaultTimeout)]
    case Touch(id, time) => if id in sessions then sessions[id := sessions[id].(lastActivity := time)] else sessions
    case Delete(id, _) => sessions - {id}
    case Sweep(time) => Swept(sessions, time)
  }

  /** A created session belongs to the user and the client it was created for, counts as active from that
      moment on, and expires by its own timeout or, when none was given, by the default one. */
  lemma CreatedFor(defaultTimeout: int, sessions: Sessions, id: Id, user: string, client: string, timeout: int,
                   time: int, now: int)
    ensures var after := Step(defaultTimeout, sessions, Create(id, user, client, timeout, time));
            && after.Keys == sessions.Keys + {id}
            && (forall x :: x in sessions && x != id ==> after[x] == sessions[x])
            && after[id].user == user && after[id].client == client && after[id].createdAt == time
            && (IsValid(after, id, now)
                <==> Seconds(now - time) <= if timeout != 0 then timeout else defaultTimeout)
  {
  }

  /** Whole seconds: a session with a timeout of `t` seconds is valid until `t + 1` seconds have passed since
      its last activity, and not from then on. */
  lemma ValidUntil(s: Session, now: int)
    requires s.active && s.timeout >= 0
    ensures ValidAt(s, now) <==> now < s.lastActivity + (s.timeout + 1) * 1_000_000_000
  {
  }

  class Manager {
    const defaultTimeout: int
    var sessions: Sessions

    constructor (defaultTimeout: int)
      ensures sessions == map[] && this.defaultTimeout == defaultTimeout
    {
      this.defaultTimeout, sessions := defaultTimeout, map[];
    }

    /** `id` is the random identifier. */
    method CreateSession(id: Id, user: string, client: string, timeout: int, now: int)
      modifies this`sessions
      ensures sessions == Step(defaultTimeout, old(sessions), Create(id, user, client, timeout, now))
    {
      var t := timeout;
      if t == 0 {
        t := defaultTimeout;
      }
      sessions := sessions[id := Session(user, client, now, now, t, true)];
    }

    method UpdateActivity(id: Id, now: int) returns (ok: bool)
      modifies this`sessions
      ensures ok == (id in old(sessions))
      ensures sessions == Step(defaultTimeout, old(sessions), Touch(id, now))
    {
      if id !in sessions {
        return false;
      }
      sessions := sessions[id := sessions[id].(lastActivity := now)];
      ok := true;
    }

    method IsValidSession(id: Id, now: int) returns (ok: bool)
      ensures ok == IsValid(sessions, id, now)
    {
      if id !in sessions || !sessions[id].active {
        return false;
      }
      if Seconds(now - sessions[id].lastActivity) > sessions[id].timeout {
        return false;
      }
      ok := true;
    }

    method DeleteSession(id: Id) returns (ok: bool)
      modifies this`sessions
      ensures ok == (id in old(sessions))
      ensures forall time :: sessions == Step(defaultTimeout, old(sessions), Delete(id, time))
    {
      if id !in sessions {
        return false;
      }
      sessions := sessions - {id};
      ok := true;
    }

    /** Sweeping removes exactly the sessions that are not valid at that instant, and says how many
        they were. */
    method CleanupExpiredSessions(now: int) returns (cleaned: nat)
      modifies this`sessions
      ensures sessions == Step(defaultTimeout, old(sessions), Sweep(now))
      ensures forall id :: id in sessions <==> IsValid(old(sessions), id, now)
      ensures cleaned + |sessions| == |old(sessions)|
    {
      cleaned := 0;
      var todo := sessions.Keys;
      while todo != {}
        invariant todo <= sessions.Keys <= old(sessions).Keys
        invariant forall id :: id in sessions ==> sessions[id] == old(sessions)[id]
        invariant forall id :: id in old(sessions) && id !in todo ==>
                (id in sessions <==> ValidAt(old(sessions)[id], now))
        invariant cleaned + |sessions| == |old(sessions)|
        decreases |todo|
      {
        var id :| id in todo;
        var elapsed := Seconds(now - sessions[id].lastActivity);
        if elapsed > sessions[id].timeout || !sessions[id].active {
          assert (sessions - {id}).Keys == sessions.Keys - {id};
          assert |sessions| == |sessions.Keys| && |sessions - {id}| == |(sessions - {id}).Keys|;
          sessions := sessions - {id};
          cleaned := cleaned + 1;
        }
        todo := todo - {id};
      }
      assert sessions == Swept(old(sessions), now);
    }

    /** The active list holds each session that the validity check accepts, once, and no other. */
    method GetActiveSessions(now: int) returns (active: seq<Id>)
      ensures forall id :: id in active <==> IsValid(sessions, id, now)
      ensures forall i, j :: 0 <= i < j < |active| ==> active[i] != active[j]
    {
      active := [];
      var todo := sessions.Keys;
      while todo != {}
        invariant todo <= sessions.Keys
        invariant forall id :: id in active <==> id !in todo && IsValid(sessions, id, now)
        invariant forall i, j :: 0 <= i < j < |active| ==> active[i] != active[j]
        decreases |todo|
      {
        var id :| id in todo;
        if sessions[id].active {
          var elapsed := Seconds(now - sessions[id].lastActivity);
          if elapsed <= sessions[id].timeout {
            active := active + [id];
          }
        }
        todo := todo - {id};
      }
    }
  }

  // ---------- runs ----------

  function Run(defaultTimeout: int, events: seq<Event>): Sessions {
    if events == [] then map[]
    else Step(defaultTimeout, Run(defaultTimeout, events[..|events| - 1]), events[|events| - 1])
  }

  datatype Life = Absent | Present(session: Session)

  /** The history of one session alone: other sessions' events are passed over. */
  function LifeOf(defaultTimeout: int, events: seq<Event>, id: Id): Life {
    if events == [] then Absent
    else LifeStep(defaultTimeout, LifeOf(defaultTimeout, events[..|events| - 1], id), events[|events| - 1], id)
  }

  function LifeStep(defaultTimeout: int, life: Life, e: Event, id: Id): Life {
    match e
    case Create(x, _, _, _, _) => if x == id then Present(Fresh(e, defaultTimeout)) else life
    case Touch(x, time) => if x == id && life.Present? then Present(life.session.(lastActivity := time)) else life
    case Delete(x, _) => if x == id then Absent else life
    case Sweep(time) => if life.Present? && ValidAt(life.session, time) then life else Absent
  }

  /** In every run each session is what its own history says: sessions do not affect each other. */
  lemma {:induction false} RunIsLives(defaultTimeout: int, events: seq<Event>, id: Id)
    ensures var sessions := Run(defaultTimeout, events);
            LifeOf(defaultTimeout, events, id) == if id in sessions then Present(sessions[id]) else Absent
  {
    if events != [] {
      RunIsLives(defaultTimeout, events[..|events| - 1], id);
    }
  }

  /** No operation makes a session inactive, so only time ends one that is not deleted. */
  lemma {:induction false} AlwaysActive(defaultTimeout: int, events: seq<Event>)
    ensures forall id :: id in Run(defaultTimeout, events) ==> Run(defaultTimeout, events)[id].active
  {
    if events != [] {
      AlwaysActive(defaultTimeout, events[..|events| - 1]);
    }
  }

  predicate Monotone(events: seq<Event>) {
    forall i, j :: 0 <= i < j < |events| ==> events[i].time <= events[j].time
  }

  predicate IsActivity(e: Event, id: Id) {
    (e.Create? || e.Touch?) && e.id == id
  }

  /** When the session was last created or touched, having been created by event `first`. */
  function LastActivity(events: seq<Event>, first: nat, id: Id): int
    requires first < |events|
  {
    if |events| == first + 1 || IsActivity(events[|events| - 1], id) then events[|events| - 1].time
    else LastActivity(events[..|events| - 1], first, id)
  }

  /** After event `first` created the session, nothing deletes it and its identifier is not reused. */
  predicate Undisturbed(events: seq<Event>, first: nat, id: Id) {
    && first < |events| && events[first].Create? && events[first].id == id
    && forall k :: first < k < |events| ==>
         !(events[k].Create? && events[k].id == id) && !(events[k].Delete? && events[k].id == id)
  }

  /** Every sweep since found the last activity recent enough. */
  ghost predicate NeverOverdue(events: seq<Event>, first: nat, id: Id, timeout: int)
    requires first < |events|
  {
    forall k :: first < k < |events| && events[k].Sweep? ==>
      Seconds(events[k].time - LastActivity(events[..k], first, id)) <= timeout
  }

  /** Exactly when a session that is not deleted is still there: whatever the clock reads, and
      whatever is done to other sessions. */
  lemma {:induction false} PresentIff(defaultTimeout: int, events: seq<Event>, first: nat, id: Id)
    requires Undisturbed(events, first, id)
    ensures var sessions := Run(defaultTimeout, events);
            var made := Fresh(events[first], defaultTimeout);
            && (id in sessions <==> NeverOverdue(events, first, id, made.timeout))
            && (id in sessions ==> sessions[id] == made.(lastActivity := LastActivity(events, first, id)))
    decreases |events|
  {
    var n := |events| - 1;
    if n > first {
      var before := events[..n];
      PresentIff(defaultTimeout, before, first, id);
      OverdueLast(events, first, id, Fresh(events[first], defaultTimeout).timeout);
      hide NeverOverdue;
    }
  }

  lemma OverdueLast(events: seq<Event>, first: nat, id: Id, timeout: int)
    requires first + 1 < |events|
    ensures var before := events[..|events| - 1];
            var last := events[|events| - 1];
            NeverOverdue(events, first, id, timeout) <==>
              NeverOverdue(before, first, id, timeout)
              && (last.Sweep? ==> Seconds(last.time - LastActivity(before, first, id)) <= timeout)
  {
    hide Seconds, LastActivity;
    var before := events[..|events| - 1];
    assert forall k :: 0 <= k <= |before| ==> events[..k] == before[..k];
  }

  /** Each activity comes within the timeout of the one before it. */
  predicate Diligent(events: seq<Event>, first: nat, id: Id, timeout: int)
    requires first < |events|
  {
    forall k :: first < k < |events| && IsActivity(events[k], id) ==>
      Seconds(events[k].time - LastActivity(events[..k], first, id)) <= timeout
  }

  /** A session whose activities follow each other within its timeout survives everything that is
      done to other sessions, and is valid for as long as its last activity is recent enough. */
  lemma {:induction false} Survives(defaultTimeout: int, events: seq<Event>, first: nat, id: Id, now: int)
    requires Monotone(events) && Undisturbed(events, first, id)
    requires Diligent(events, first, id, Fresh(events[first], defaultTimeout).timeout)
    requires forall i :: 0 <= i < |events| ==> events[i].time <= now
    requires Seconds(now - LastActivity(events, first, id)) <= Fresh(events[first], defaultTimeout).timeout
    ensures var sessions := Run(defaultTimeout, events);
            && IsValid(sessions, id, now)
            && sessions[id] == Fresh(events[first], defaultTimeout).(lastActivity := LastActivity(events, first, id))
    decreases |events|
  {
    var n := |events| - 1;
    var last := events[n];
    if n > first {
      var before := events[..n];
      Shorter(events, first, id, Fresh(events[first], defaultTimeout).timeout);
      hide Monotone, Diligent;
      if IsActivity(last, id) {
        Survives(defaultTimeout, before, first, id, last.time);
      } else {
        Survives(defaultTimeout, before, first, id, now);
        if last.Sweep? {
          SecondsMonotone(last.time - LastActivity(before, first, id), now - LastActivity(before, first, id));
        }
      }
    }
  }

  lemma Shorter(events: seq<Event>, first: nat, id: Id, timeout: int)
    requires first + 1 < |events|
    requires Monotone(events) && Undisturbed(events, first, id) && Diligent(events, first, id, timeout)
    ensures var before := events[..|events| - 1];
            var last := events[|events| - 1];
            && Monotone(before) && Undisturbed(before, first, id) && Diligent(before, first, id, timeout)
            && (forall i :: 0 <= i < |before| ==> before[i].time <= last.time)
            && (IsActivity(last, id) ==> Seconds(last.time - LastActivity(before, first, id)) <= timeout)
  {
    var before := events[..|events| - 1];
    assert forall k :: 0 <= k <= |before| ==> events[..k] == before[..k];
  }
}
