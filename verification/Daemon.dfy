/** The daemon's threads: one accepts connections, several workers process sessions, and `stop`
    joins them. Each critical section is one step, and a run is any interleaving of steps. */
module Daemon {
  import S = Session

  type RSyncSession = S.RSyncSession

  // ---------- the pool's list operations ----------

  /** The sessions a worker takes out of the pool, and those it leaves behind. */
  function Taken<T>(pool: seq<T>, active: set<T>): seq<T> {
    if pool == [] then []
    else if pool[0] in active then [pool[0]] + Taken(pool[1..], active)
    else Taken(pool[1..], active)
  }

  function Left<T>(pool: seq<T>, active: set<T>): seq<T> {
    if pool == [] then []
    else if pool[0] in active then Left(pool[1..], active)
    else [pool[0]] + Left(pool[1..], active)
  }

  lemma {:induction false} TakenAndLeft<T>(pool: seq<T>, active: set<T>)
    ensures multiset(Taken(pool, active)) + multiset(Left(pool, active)) == multiset(pool)
    ensures forall x :: x in Taken(pool, active) ==> x in active
    ensures forall x :: x in Left(pool, active) ==> x !in active
  {
    if pool != [] {
      TakenAndLeft(pool[1..], active);
      assert pool == [pool[0]] + pool[1..];
    }
  }

  lemma TakenOrLeft<T>(pool: seq<T>, active: set<T>, x: T)
    ensures multiset(Taken(pool, active))[x] + multiset(Left(pool, active))[x] == multiset(pool)[x]
  {
    TakenAndLeft(pool, active);
    assert (multiset(Taken(pool, active)) + multiset(Left(pool, active)))[x] == multiset(pool)[x];
  }

  lemma {:induction false} TakenAppend<T>(pool: seq<T>, x: T, active: set<T>)
    ensures Taken(pool + [x], active) == if x in active then Taken(pool, active) + [x] else Taken(pool, active)
    ensures Left(pool + [x], active) == if x in active then Left(pool, active) else Left(pool, active) + [x]
  {
    if pool == [] {
      assert pool + [x] == [x];
    } else {
      assert (pool + [x])[1..] == pool[1..] + [x];
      TakenAppend(pool[1..], x, active);
    }
  }

  lemma {:induction false} AllTaken<T>(pool: seq<T>, active: set<T>)
    requires forall x :: x in pool ==> x in active
    ensures Taken(pool, active) == pool && Left(pool, active) == []
  {
    if pool != [] {
      AllTaken(pool[1..], active);
    }
  }

  /** The next session to look at, and the pool without it. */
  lemma SameHead<T>(pool: seq<T>, i: nat, all: seq<T>, n: nat)
    requires i <= |pool| && n < |all| && pool[i..] == all[n..]
    ensures i < |pool| && pool[i] == all[n] && pool[i + 1..] == all[n + 1..]
    ensures pool[..i + 1] == pool[..i] + [pool[i]] && all[..n + 1] == all[..n] + [all[n]]
    ensures (pool[..i] + pool[i + 1..])[..i] == pool[..i] && (pool[..i] + pool[i + 1..])[i..] == pool[i + 1..]
  {
    assert pool[i] == pool[i..][0] && all[n] == all[n..][0];
    assert pool[i + 1..] == pool[i..][1..] && all[n + 1..] == all[n..][1..];
  }

  ghost function ActiveIn(sessions: seq<RSyncSession>): set<RSyncSession>
    reads sessions
  {
    set s | s in sessions && s.active
  }

  class SessionPool {
    var activeSessions: seq<RSyncSession>
    var totalConnections: nat

    constructor ()
      ensures activeSessions == [] && totalConnections == 0
    {
      activeSessions, totalConnections := [], 0;
    }

    method HasRoom(maxConnections: nat) returns (room: bool)
      ensures room <==> |activeSessions| < maxConnections
    {
      room := !(|activeSessions| >= maxConnections);
    }

    method Add(session: RSyncSession)
      modifies this
      ensures activeSessions == old(activeSessions) + [session]
      ensures totalConnections == old(totalConnections) + 1
    {
      activeSessions := activeSessions + [session];
      totalConnections := totalConnections + 1;
    }

    method TakeActive() returns (taken: seq<RSyncSession>)
      modifies this`activeSessions
      ensures taken == Taken(old(activeSessions), old(ActiveIn(activeSessions)))
      ensures activeSessions == Left(old(activeSessions), old(ActiveIn(activeSessions)))
    {
      ghost var active := ActiveIn(activeSessions);
      var all := activeSessions;
      taken := [];
      var i, n := 0, 0;
      while n < |all|
        invariant 0 <= n <= |all|
        invariant taken == Taken(all[..n], active)
        invariant i <= |activeSessions| && activeSessions[..i] == Left(all[..n], active)
                && activeSessions[i..] == all[n..]
      {
        TakenAppend(all[..n], all[n], active);
        SameHead(activeSessions, i, all, n);
        hide Taken, Left;
        if activeSessions[i].active {
          taken := taken + [activeSessions[i]];
          activeSessions := activeSessions[..i] + activeSessions[i + 1..];
        } else {
          i := i + 1;
        }
        n := n + 1;
      }
      assert all[..n] == all && activeSessions[..i] + activeSessions[i..] == activeSessions;
    }

    method ReturnActive(processed: seq<RSyncSession>)
      modifies this`activeSessions
      ensures activeSessions == old(activeSessions) + Taken(processed, ActiveIn(processed))
    {
      ghost var before := activeSessions;
      ghost var active := ActiveIn(processed);
      var n := 0;
      while n < |processed|
        invariant 0 <= n <= |processed|
        invariant activeSessions == before + Taken(processed[..n], active)
      {
        TakenAppend(processed[..n], processed[n], active);
        assert processed[..n + 1] == processed[..n] + [processed[n]];
        if processed[n].active {
          activeSessions := activeSessions + [processed[n]];
        }
        n := n + 1;
      }
      assert processed[..n] == processed;
    }

    method CloseSessions()
      requires forall s :: s in activeSessions ==> s.active ==> s.open
      modifies set s | s in activeSessions
      ensures forall s :: s in activeSessions ==> !s.active
    {
      var n := 0;
      while n < |activeSessions|
        invariant 0 <= n <= |activeSessions|
        invariant forall s :: s in activeSessions ==> s.active ==> s.open
        invariant forall k :: 0 <= k < n ==> !activeSessions[k].active
      {
        activeSessions[n].Close();
        n := n + 1;
      }
    }

    method CleanupSessions()
      modifies this`activeSessions
      ensures activeSessions == []
    {
      activeSessions := [];
    }
  }

  // ---------- the threads ----------

  type Id = nat

  /** Where the accept thread is: at the top of its loop, past the test of the flags, past the
      capacity check with a TLS handshake that is over or was not asked for, or with one that waits for the
      client, holding a session it has made, or finished. */
  datatype Acceptor = Looping | Waiting | Admitted(greeted: bool) | Holding(id: Id) | Finished

  /** Where a worker is: at the top, past the test of the flags, or going through its list. */
  datatype Worker = Top | Entered | Processing(list: seq<Id>, next: nat) | Exited

  datatype Stopper = NotStopping | JoiningAccept | JoiningWorkers(joined: nat) | Clearing | Stopped

  /** `answered` holds the sessions whose client has done what the next call on its socket waits for: sent
      something, taken something, or closed. `created`, `pooled` and `retired` are the history: sessions
      ever made, sessions ever put into the pool, and sessions that were destroyed. */
  datatype State = State(
    running: bool,
    pool: seq<Id>,
    total: nat,
    acceptor: Acceptor,
    workers: seq<Worker>,
    stopper: Stopper,
    active: set<Id>,
    answered: set<Id>,
    created: set<Id>,
    pooled: set<Id>,
    retired: seq<Id>)

  function Start(workers: nat): State {
    State(true, [], 0, Looping, seq(workers, _ => Top), NotStopping, {}, {}, {}, {}, [])
  }

  /** `Accept` events: the flags are tested; a connection is refused, fails for good, or passes the
      capacity check; its session is made, or fails to be; the session is pooled. `Work` events: the
      flags are tested, the active sessions taken, the next one processed, the list given back.
      `Stop` events: the flags are lowered, the threads joined, the pool closed and cleared. And
      clients answer, in their sessions or in the handshake before one. */
  datatype Event =
    | AcceptTest | AcceptRefuse | AcceptFail | AcceptAdmit(max: nat, tls: bool) | AcceptMake(id: Id) | AcceptPool
    | WorkTest(w: nat) | WorkTake(w: nat) | WorkProcess(w: nat, stays: bool) | WorkReturn(w: nat)
    | StopBegin | StopJoin | StopClose | StopClear
    | Answer(id: Id) | Greet

  /** The worker's next session is active and its client silent: the call on the socket does not return,
      since sockets block and have no time limit. */
  predicate Waits(s: State, w: nat) {
    && w < |s.workers| && s.workers[w].Processing? && s.workers[w].next < |s.workers[w].list|
    && s.workers[w].list[s.workers[w].next] in s.active
    && s.workers[w].list[s.workers[w].next] !in s.answered
  }

  predicate WorkerIs(s: State, w: nat, e: Event) {
    && w < |s.workers|
    && match e
       case WorkTest(_) => s.workers[w].Top?
       case WorkTake(_) => s.workers[w].Entered?
       case WorkProcess(_, _) =>
         s.workers[w].Processing? && s.workers[w].next < |s.workers[w].list| && !Waits(s, w)
       case WorkReturn(_) => s.workers[w].Processing? && s.workers[w].next >= |s.workers[w].list|
       case _ => false
  }

  /** Session ids stand for objects, so a new one is not in use. */
  predicate Enabled(s: State, e: Event) {
    match e
    case AcceptTest => s.acceptor.Looping?
    case AcceptRefuse => s.acceptor.Waiting? || (s.acceptor.Admitted? && s.acceptor.greeted)
    case AcceptFail => s.acceptor.Waiting?
    case AcceptAdmit(max, tls) => s.acceptor.Waiting?
    case AcceptMake(id) => s.acceptor.Admitted? && s.acceptor.greeted && id !in s.created
    case AcceptPool => s.acceptor.Holding?
    case WorkTest(w) => WorkerIs(s, w, e)
    case WorkTake(w) => WorkerIs(s, w, e)
    case WorkProcess(w, stays) => WorkerIs(s, w, e)
    case WorkReturn(w) => WorkerIs(s, w, e)
    case StopBegin => s.stopper.NotStopping?
    case StopJoin =>
      (s.stopper.JoiningAccept? && s.acceptor.Finished?)
      || (s.stopper.JoiningWorkers? && s.stopper.joined < |s.workers| && s.workers[s.stopper.joined].Exited?)
    case StopClose => s.stopper.JoiningWorkers? && s.stopper.joined >= |s.workers|
    case StopClear => s.stopper.Clearing?
    case Answer(id) => id in s.active && id !in s.answered
    case Greet => s.acceptor.Admitted? && !s.acceptor.greeted
  }

  function Accept(s: State, e: Event): State
    requires Enabled(s, e)
  {
    match e
    case AcceptTest => s.(acceptor := if s.running then Waiting else Finished)
    case AcceptRefuse => s.(acceptor := Looping)
    case AcceptFail => s.(acceptor := Finished)
    case AcceptAdmit(max, tls) => s.(acceptor := if |s.pool| >= max then Looping else Admitted(!tls))
    case AcceptMake(id) => s.(acceptor := Holding(id), active := s.active + {id}, created := s.created + {id})
    case AcceptPool =>
      s.(acceptor := Looping, pool := s.pool + [s.acceptor.id], total := s.total + 1,
        pooled := s.pooled + {s.acceptor.id})
    case _ => s
  }

  function SetWorker(s: State, w: nat, x: Worker): State
    requires w < |s.workers|
  {
    s.(workers := s.workers[w := x])
  }

  /** A worker processes its next session if that is active: the request is served or the session
      is closed. */
  function Work(s: State, e: Event): State
    requires Enabled(s, e)
  {
    match e
    case WorkTest(w) => SetWorker(s, w, if s.running then Entered else Exited)
    case WorkTake(w) =>
      SetWorker(s, w, Processing(Taken(s.pool, s.active), 0)).(pool := Left(s.pool, s.active))
    case WorkProcess(w, stays) =>
      var p := s.workers[w];
      SetWorker(s, w, p.(next := p.next + 1)).(
        active := if stays then s.active else s.active - {p.list[p.next]},
        answered := s.answered - {p.list[p.next]})
    case WorkReturn(w) =>
      var list := s.workers[w].list;
      SetWorker(s, w, Top).(pool := s.pool + Taken(list, s.active), retired := s.retired + Left(list, s.active))
    case _ => s
  }

  function Stop(s: State, e: Event): State
    requires Enabled(s, e)
  {
    match e
    case StopBegin => if s.running then s.(running := false, stopper := JoiningAccept) else s
    case StopJoin =>
      s.(stopper := if s.stopper.JoiningAccept? then JoiningWorkers(0) else JoiningWorkers(s.stopper.joined + 1))
    case StopClose => s.(stopper := Clearing, active := s.active - set x | x in s.pool)
    case StopClear => s.(stopper := Stopped, pool := [], retired := s.retired + s.pool)
    case _ => s
  }

  /** An event that is not enabled does not happen. */
  function Step(s: State, e: Event): State {
    if !Enabled(s, e) then s
    else if e.AcceptTest? || e.AcceptRefuse? || e.AcceptFail? || e.AcceptAdmit? || e.AcceptMake? || e.AcceptPool? then
      Accept(s, e)
    else if e.WorkTest? || e.WorkTake? || e.WorkProcess? || e.WorkReturn? then Work(s, e)
    else if e.Answer? then s.(answered := s.answered + {e.id})
    else if e.Greet? then s.(acceptor := Admitted(true))
    else Stop(s, e)
  }

  function Run(s: State, events: seq<Event>): State
    decreases |events|
  {
    if events == [] then s else Run(Step(s, events[0]), events[1..])
  }

  // ---------- every session is in one place ----------

  function ListOf(w: Worker): seq<Id> {
    if w.Processing? then w.list else []
  }

  function Held(workers: seq<Worker>, x: Id): nat {
    if workers == [] then 0 else multiset(ListOf(workers[0]))[x] + Held(workers[1..], x)
  }

  function Pending(a: Acceptor, x: Id): nat {
    if a.Holding? && a.id == x then 1 else 0
  }

  /** In how many places a session is. */
  function Places(s: State, x: Id): nat {
    multiset(s.pool)[x] + Pending(s.acceptor, x) + Held(s.workers, x) + multiset(s.retired)[x]
  }

  ghost predicate Conserved(s: State) {
    forall x :: Places(s, x) == if x in s.created then 1 else 0
  }

  lemma {:induction false} HeldUpdate(workers: seq<Worker>, w: nat, y: Worker, x: Id)
    requires w < |workers|
    ensures Held(workers[w := y], x) + multiset(ListOf(workers[w]))[x] == Held(workers, x) + multiset(ListOf(y))[x]
  {
    if w > 0 {
      assert workers[w := y][1..] == workers[1..][w - 1 := y];
      HeldUpdate(workers[1..], w - 1, y, x);
    } else {
      assert workers[w := y][1..] == workers[1..];
    }
  }

  lemma WorkConserves(s: State, e: Event, x: Id)
    requires Enabled(s, e)
    ensures Places(Work(s, e), x) == Places(s, x)
  {
    match e
    case WorkTest(w) => SetConserves(s, w, if s.running then Entered else Exited, x);
    case WorkTake(w) => TakeConserves(s, w, x);
    case WorkProcess(w, _) => SetConserves(s, w, s.workers[w].(next := s.workers[w].next + 1), x);
    case WorkReturn(w) => ReturnConserves(s, w, x);
    case _ =>
  }

  lemma SetConserves(s: State, w: nat, y: Worker, x: Id)
    requires w < |s.workers| && ListOf(y) == ListOf(s.workers[w])
    ensures forall active, answered ::
            Places(SetWorker(s, w, y).(active := active, answered := answered), x) == Places(s, x)
    ensures Places(SetWorker(s, w, y), x) == Places(s, x)
  {
    HeldUpdate(s.workers, w, y, x);
  }

  lemma TakeConserves(s: State, w: nat, x: Id)
    requires Enabled(s, WorkTake(w))
    ensures Places(Work(s, WorkTake(w)), x) == Places(s, x)
  {
    TakenOrLeft(s.pool, s.active, x);
    HeldUpdate(s.workers, w, Processing(Taken(s.pool, s.active), 0), x);
  }

  lemma ReturnConserves(s: State, w: nat, x: Id)
    requires Enabled(s, WorkReturn(w))
    ensures Places(Work(s, WorkReturn(w)), x) == Places(s, x)
  {
    var list := s.workers[w].list;
    TakenOrLeft(list, s.active, x);
    HeldUpdate(s.workers, w, Top, x);
    AppendCounts(s.pool, Taken(list, s.active), x);
    AppendCounts(s.retired, Left(list, s.active), x);
  }

  lemma AppendCounts(a: seq<Id>, b: seq<Id>, x: Id)
    ensures multiset(a + b)[x] == multiset(a)[x] + multiset(b)[x]
  {
    assert multiset(a + b) == multiset(a) + multiset(b);
  }

  lemma AcceptConserves(s: State, e: Event, x: Id)
    requires Enabled(s, e)
    ensures Places(Accept(s, e), x) == Places(s, x) + if e.AcceptMake? && e.id == x then 1 else 0
  {
    if e.AcceptPool? {
      AppendCounts(s.pool, [s.acceptor.id], x);
    }
  }

  lemma StopConserves(s: State, e: Event, x: Id)
    requires Enabled(s, e)
    ensures Places(Stop(s, e), x) == Places(s, x)
  {
    if e.StopClear? {
      AppendCounts(s.retired, s.pool, x);
    }
  }

  lemma AnswerConserves(s: State, e: Event, x: Id)
    requires Enabled(s, e)
    ensures e.Answer? ==> Places(s.(answered := s.answered + {e.id}), x) == Places(s, x)
    ensures e.Greet? ==> Places(s.(acceptor := Admitted(true)), x) == Places(s, x)
  {
  }

  lemma ConservedKeeps(s: State, e: Event)
    requires Conserved(s)
    ensures Conserved(Step(s, e))
  {
    if Enabled(s, e) {
      forall x ensures Places(Step(s, e), x) == if x in Step(s, e).created then 1 else 0 {
        AnswerConserves(s, e, x);
        hide Places;
        AcceptConserves(s, e, x);
        WorkConserves(s, e, x);
        StopConserves(s, e, x);
      }
    }
  }

  // ---------- counting ----------

  ghost predicate Counted(s: State) {
    && s.total == |s.pooled|
    && s.created == (if s.acceptor.Holding? then s.pooled + {s.acceptor.id} else s.pooled)
    && (s.acceptor.Holding? ==> s.acceptor.id !in s.pooled)
  }

  lemma CountedKeeps(s: State, e: Event)
    requires Counted(s)
    ensures Counted(Step(s, e))
  {
    hide Taken, Left, WorkerIs, Counted;
    if Enabled(s, e) {
      AnswerCounts(s, e);
      AcceptCounts(s, e);
      OthersCount(s, e);
    }
  }

  lemma AnswerCounts(s: State, e: Event)
    requires Counted(s) && Enabled(s, e)
    ensures e.Answer? ==> Counted(s.(answered := s.answered + {e.id}))
    ensures e.Greet? ==> Counted(s.(acceptor := Admitted(true)))
  {
  }

  lemma AcceptCounts(s: State, e: Event)
    requires Counted(s) && Enabled(s, e)
    ensures Counted(Accept(s, e))
  {
    if e.AcceptPool? {
      PoolCounts(s);
    } else {
      MakeCounts(s, e);
    }
  }

  lemma MakeCounts(s: State, e: Event)
    requires Counted(s) && Enabled(s, e) && !e.AcceptPool?
    ensures Counted(Accept(s, e))
  {
    hide Taken, Left, WorkerIs;
  }

  lemma PoolCounts(s: State)
    requires Counted(s) && Enabled(s, AcceptPool)
    ensures Counted(Accept(s, AcceptPool))
  {
    hide Taken, Left, WorkerIs;
    PooledCounts(s.pooled, s.acceptor.id);
  }

  lemma PooledCounts(pooled: set<Id>, id: Id)
    requires id !in pooled
    ensures |pooled + {id}| == |pooled| + 1
  {
  }

  lemma OthersCount(s: State, e: Event)
    requires Counted(s) && Enabled(s, e)
    ensures Counted(Work(s, e)) && Counted(Stop(s, e))
  {
    hide Taken, Left;
  }

  // ---------- activity ----------

  /** Only sessions that exist are active; pooled and pending ones are, until the pool is closed;
      what a worker has not reached yet is; destroyed ones are not. */
  ghost predicate Active(s: State) {
    && s.active <= s.created
    && (s.acceptor.Holding? ==> s.acceptor.id in s.active)
    && (forall x :: x in s.retired ==> x !in s.active)
    && (if s.stopper.Clearing? then forall x :: x in s.pool ==> x !in s.active
        else forall x :: x in s.pool ==> x in s.active)
  }

  /** Threads that were joined have ended. */
  ghost predicate Ordered(s: State) {
    && (s.running <==> s.stopper.NotStopping?)
    && (s.stopper.JoiningWorkers? || s.stopper.Clearing? || s.stopper.Stopped? ==> s.acceptor.Finished?)
    && (s.stopper.JoiningWorkers? ==> s.stopper.joined <= |s.workers|)
    && (s.stopper.JoiningWorkers? ==> forall k :: 0 <= k < s.stopper.joined ==> s.workers[k].Exited?)
    && (s.stopper.Clearing? || s.stopper.Stopped? ==> forall k :: 0 <= k < |s.workers| ==> s.workers[k].Exited?)
    && (s.stopper.Stopped? ==> s.pool == [])
  }

  lemma OrderedKeeps(s: State, e: Event)
    requires Ordered(s)
    ensures Ordered(Step(s, e))
  {
  }

  /** A session in two workers' lists is counted twice. */
  lemma {:induction false} HeldAt(workers: seq<Worker>, w: nat, x: Id)
    requires w < |workers|
    ensures multiset(ListOf(workers[w]))[x] <= Held(workers, x)
    ensures forall v :: w < v < |workers| ==>
            multiset(ListOf(workers[w]))[x] + multiset(ListOf(workers[v]))[x] <= Held(workers, x)
  {
    if w > 0 {
      HeldAt(workers[1..], w - 1, x);
      forall v | w < v < |workers|
        ensures multiset(ListOf(workers[w]))[x] + multiset(ListOf(workers[v]))[x] <= Held(workers, x)
      {
        assert workers[1..][v - 1] == workers[v];
      }
    } else {
      forall v | 0 < v < |workers|
        ensures multiset(ListOf(workers[0]))[x] + multiset(ListOf(workers[v]))[x] <= Held(workers, x)
      {
        HeldAt(workers[1..], v - 1, x);
      }
    }
  }

  lemma ActiveKeeps(s: State, e: Event)
    requires Conserved(s) && Active(s) && Ordered(s)
    ensures Active(Step(s, e))
  {
    if Enabled(s, e) {
      match e
      case AcceptMake(id) => assert Places(s, id) == 0;
      case WorkTake(w) => TakeKeepsActive(s, w);
      case WorkProcess(w, stays) => ProcessKeepsActive(s, w, stays);
      case WorkReturn(w) => ReturnKeepsActive(s, w);
      case _ =>
    }
  }

  lemma TakeKeepsActive(s: State, w: nat)
    requires Active(s) && Ordered(s) && Enabled(s, WorkTake(w))
    ensures Active(Work(s, WorkTake(w)))
  {
    AllTaken(s.pool, s.active);
  }

  lemma ProcessKeepsActive(s: State, w: nat, stays: bool)
    requires Conserved(s) && Active(s) && Ordered(s) && Enabled(s, WorkProcess(w, stays))
    ensures Active(Work(s, WorkProcess(w, stays)))
  {
    var x := s.workers[w].list[s.workers[w].next];
    HeldAt(s.workers, w, x);
    assert Places(s, x) <= 1;
  }

  lemma ReturnKeepsActive(s: State, w: nat)
    requires Active(s) && Ordered(s) && Enabled(s, WorkReturn(w))
    ensures Active(Work(s, WorkReturn(w)))
  {
    TakenAndLeft(s.workers[w].list, s.active);
  }

  ghost predicate Invariant(s: State) {
    Conserved(s) && Counted(s) && Active(s) && Ordered(s)
  }

  lemma {:induction false} NothingHeld(workers: seq<Worker>, x: Id)
    requires forall k :: 0 <= k < |workers| ==> !workers[k].Processing?
    ensures Held(workers, x) == 0
  {
    if workers != [] {
      NothingHeld(workers[1..], x);
    }
  }

  lemma {:induction false} RunKeeps(s: State, events: seq<Event>)
    requires Invariant(s)
    ensures Invariant(Run(s, events))
    decreases |events|
  {
    if events != [] {
      ConservedKeeps(s, events[0]);
      CountedKeeps(s, events[0]);
      ActiveKeeps(s, events[0]);
      OrderedKeeps(s, events[0]);
      RunKeeps(Step(s, events[0]), events[1..]);
    }
  }

  lemma Reached(workers: nat, events: seq<Event>)
    ensures Invariant(Run(Start(workers), events))
  {
    forall x ensures Places(Start(workers), x) == 0 {
      NothingHeld(Start(workers).workers, x);
    }
    RunKeeps(Start(workers), events);
  }

  // ---------- what holds in every run ----------

  ghost predicate InList(s: State, w: nat, i: nat, x: Id) {
    w < |s.workers| && i < |ListOf(s.workers[w])| && ListOf(s.workers[w])[i] == x
  }

  /** In every run each session ever made is in exactly one place, once: the pool, the accept
      thread's hands, one worker's list, or among the destroyed. */
  lemma OnePlace(workers: nat, events: seq<Event>, x: Id)
    ensures var s := Run(Start(workers), events);
            multiset(s.pool)[x] + Pending(s.acceptor, x) + Held(s.workers, x) + multiset(s.retired)[x]
            == if x in s.created then 1 else 0
  {
    Reached(workers, events);
    assert Places(Run(Start(workers), events), x) == if x in Run(Start(workers), events).created then 1 else 0;
  }

  /** No two workers ever hold the same session, nor one worker twice, and no session that a worker
      holds is in the pool. */
  lemma NoSharing(workers: nat, events: seq<Event>, w: nat, i: nat, v: nat, j: nat, x: Id)
    ensures var s := Run(Start(workers), events);
            InList(s, w, i, x) ==> x !in s.pool && x !in s.retired && (InList(s, v, j, x) ==> w == v && i == j)
  {
    var s := Run(Start(workers), events);
    OnePlace(workers, events, x);
    if InList(s, w, i, x) {
      HeldAt(s.workers, w, x);
      if InList(s, v, j, x) {
        HeldAt(s.workers, v, x);
        if w == v && i != j {
          TwiceInList(ListOf(s.workers[w]), if i < j then i else j, if i < j then j else i);
        }
      }
    }
  }

  lemma TwiceInList(list: seq<Id>, i: nat, j: nat)
    requires i < j < |list| && list[i] == list[j]
    ensures multiset(list)[list[i]] >= 2
  {
    assert list == list[..j] + [list[j]] + list[j + 1..];
    assert list[..j][i] == list[i];
  }

  /** The connection counter is the number of sessions ever pooled, and lags the sessions ever made
      by the one the accept thread may be holding. */
  lemma TotalCounts(workers: nat, events: seq<Event>)
    ensures var s := Run(Start(workers), events);
            s.total == |s.pooled| && |s.created| == s.total + if s.acceptor.Holding? then 1 else 0
  {
    Reached(workers, events);
    var s := Run(Start(workers), events);
    if s.acceptor.Holding? {
      assert s.created == s.pooled + {s.acceptor.id};
    }
  }

  /** When `stop` is through, every session ever made is inactive and destroyed, and the pool is
      empty. */
  lemma StoppedIsQuiet(workers: nat, events: seq<Event>)
    requires Run(Start(workers), events).stopper.Stopped?
    ensures var s := Run(Start(workers), events);
            s.active == {} && s.pool == [] && multiset(s.retired) == multiset(s.created) && s.total == |s.created|
  {
    Reached(workers, events);
    TotalCounts(workers, events);
    var s := Run(Start(workers), events);
    forall x ensures multiset(s.retired)[x] == multiset(s.created)[x] && (x in s.created ==> x in s.retired) {
      NothingHeld(s.workers, x);
      assert Places(s, x) == if x in s.created then 1 else 0;
    }
    assert forall x :: x in s.created ==> x in s.retired;
  }

  /** Nothing happens after that. */
  lemma StoppedIsFinal(workers: nat, events: seq<Event>, e: Event)
    requires Run(Start(workers), events).stopper.Stopped?
    ensures Step(Run(Start(workers), events), e) == Run(Start(workers), events)
  {
    Reached(workers, events);
    StoppedIsQuiet(workers, events);
  }

  /** The pool is a queue: whatever joins it does so at its end, and only a worker taking the active sessions
      and the end of `stop` remove any, the others keeping their order. */
  lemma JoinsAtEnd(s: State, e: Event)
    ensures !e.WorkTake? && !e.StopClear? ==> s.pool <= Step(s, e).pool
    ensures Enabled(s, e) && e.WorkTake? ==> Step(s, e).pool == Left(s.pool, s.active)
    ensures Enabled(s, e) && e.StopClear? ==> Step(s, e).pool == []
  {
  }

  // ---------- the capacity ----------

  /** A connection is admitted exactly while the pool holds fewer sessions than the capacity. */
  lemma AdmittedIff(s: State, max: nat, tls: bool)
    requires s.acceptor.Waiting?
    ensures var t := Step(s, AcceptAdmit(max, tls));
            && (t.acceptor.Admitted? <==> |s.pool| < max) && (t.acceptor.Looping? <==> |s.pool| >= max)
            && t.(acceptor := s.acceptor) == s
  {
  }

  /** How many sessions the workers have put back. */
  function PutBack(s: State, events: seq<Event>): nat
    decreases |events|
  {
    if events == [] then 0
    else (if Enabled(s, events[0]) && events[0].WorkReturn? then |s.workers[events[0].w].list| else 0)
         + PutBack(Step(s, events[0]), events[1..])
  }

  /** Every connection is admitted under the same capacity. */
  predicate Capacity(events: seq<Event>, max: nat) {
    forall i :: 0 <= i < |events| ==> events[i].AcceptAdmit? ==> events[i].max == max
  }

  predicate WithinBound(s: State, bound: nat) {
    |s.pool| <= bound && (s.acceptor.Admitted? || s.acceptor.Holding? ==> |s.pool| < bound)
  }

  lemma {:induction false} TakenShorter<T>(pool: seq<T>, active: set<T>)
    ensures |Taken(pool, active)| + |Left(pool, active)| == |pool|
  {
    if pool != [] {
      TakenShorter(pool[1..], active);
    }
  }

  lemma BoundKeeps(s: State, e: Event, max: nat, bound: nat)
    requires WithinBound(s, bound) && max <= bound && (e.AcceptAdmit? ==> e.max == max)
    ensures WithinBound(Step(s, e),
            bound + if Enabled(s, e) && e.WorkReturn? then |s.workers[e.w].list| else 0)
  {
    if Enabled(s, e) {
      if e.WorkTake? {
        TakenShorter(s.pool, s.active);
      } else if e.WorkReturn? {
        TakenShorter(s.workers[e.w].list, s.active);
      }
    }
  }

  lemma {:induction false} BoundStays(s: State, events: seq<Event>, max: nat, bound: nat)
    requires WithinBound(s, bound) && max <= bound && Capacity(events, max)
    ensures WithinBound(Run(s, events), bound + PutBack(s, events))
    decreases |events|
  {
    if events != [] {
      BoundKeeps(s, events[0], max, bound);
      hide Step, Enabled, WithinBound;
      var more := if Enabled(s, events[0]) && events[0].WorkReturn? then |s.workers[events[0].w].list| else 0;
      BoundStays(Step(s, events[0]), events[1..], max, bound + more);
    }
  }

  /** In every run the pool holds at most the capacity and what the workers have put back: the check and the
      push are separate, but only the accept thread adds a session, and only after the check. */
  lemma PoolWithinCapacity(workers: nat, events: seq<Event>, max: nat)
    requires Capacity(events, max)
    ensures |Run(Start(workers), events).pool| <= max + PutBack(Start(workers), events)
  {
    BoundStays(Start(workers), events, max, max);
  }

  // ---------- stopping comes to an end ----------

  function AcceptorRank(a: Acceptor): nat {
    match a
    case Finished => 0
    case Looping => 1
    case Holding(_) => 2
    case Admitted(greeted) => if greeted then 3 else 4
    case Waiting => 5
  }

  function EnteredCount(workers: seq<Worker>): nat {
    if workers == [] then 0 else (if workers[0].Entered? then 1 else 0) + EnteredCount(workers[1..])
  }

  function WorkerRank(w: Worker): nat {
    match w
    case Exited => 0
    case Top => 1
    case Processing(list, next) => 2 + (if next <= |list| then |list| - next else 0)
    case Entered => 0
  }

  function WorkLeft(workers: seq<Worker>): nat {
    if workers == [] then 0 else WorkerRank(workers[0]) + WorkLeft(workers[1..])
  }

  function StopperRank(s: State): nat {
    match s.stopper
    case Stopped => 0
    case Clearing => 1
    case JoiningWorkers(k) => 2 + (if k <= |s.workers| then |s.workers| - k else 0)
    case JoiningAccept => 3 + |s.workers|
    case NotStopping => 4 + |s.workers|
  }

  lemma {:induction false} RankUpdate(workers: seq<Worker>, w: nat, x: Worker)
    requires w < |workers|
    ensures WorkLeft(workers[w := x]) + WorkerRank(workers[w]) == WorkLeft(workers) + WorkerRank(x)
    ensures EnteredCount(workers[w := x]) + (if workers[w].Entered? then 1 else 0)
            == EnteredCount(workers) + if x.Entered? then 1 else 0
  {
    if w > 0 {
      assert workers[w := x][1..] == workers[1..][w - 1 := x];
      RankUpdate(workers[1..], w - 1, x);
    } else {
      assert workers[w := x][1..] == workers[1..];
    }
  }

  /** How many clients are silent. */
  function Silent(s: State): nat {
    |s.active - s.answered|
  }

  predicate Nearer(t: State, s: State) {
    var a := AcceptorRank(t.acceptor) + EnteredCount(t.workers);
    var b := AcceptorRank(s.acceptor) + EnteredCount(s.workers);
    a < b
    || (a == b
        && (WorkLeft(t.workers) < WorkLeft(s.workers)
            || (WorkLeft(t.workers) == WorkLeft(s.workers)
                && (StopperRank(t) < StopperRank(s)
                    || (StopperRank(t) == StopperRank(s) && Silent(t) < Silent(s))))))
  }

  lemma WorkDescends(s: State, e: Event)
    requires !s.running && Enabled(s, e) && (e.WorkTest? || e.WorkTake? || e.WorkProcess? || e.WorkReturn?)
    ensures Nearer(Work(s, e), s)
  {
    hide Taken, Left;
    match e
    case WorkTest(w) => RankUpdate(s.workers, w, Exited);
    case WorkTake(w) => RankUpdate(s.workers, w, Processing(Taken(s.pool, s.active), 0));
    case WorkProcess(w, _) => RankUpdate(s.workers, w, s.workers[w].(next := s.workers[w].next + 1));
    case WorkReturn(w) => RankUpdate(s.workers, w, Top);
  }

  lemma AnswerDescends(s: State, id: Id)
    requires id in s.active && id !in s.answered
    ensures Silent(s.(answered := s.answered + {id})) < Silent(s)
  {
    assert s.active - (s.answered + {id}) == (s.active - s.answered) - {id};
  }

  /** Once `stop` has begun, every step that is taken brings the end nearer, in a well-founded
      order: no thread can keep the others waiting by going round its loop. */
  lemma StopDescends(s: State, e: Event)
    requires Ordered(s) && !s.running && Enabled(s, e) && !e.StopBegin?
    ensures Nearer(Step(s, e), s)
  {
    hide WorkLeft, EnteredCount, Work, Silent;
    if e.WorkTest? || e.WorkTake? || e.WorkProcess? || e.WorkReturn? {
      WorkDescends(s, e);
    } else if e.Answer? {
      AnswerDescends(s, e.id);
    }
  }

  /** A step of one of the threads. */
  predicate ByThread(e: Event) {
    !e.Answer? && !e.Greet? && !e.StopBegin?
  }

  ghost predicate Stuck(s: State) {
    forall e :: Enabled(s, e) ==> !ByThread(e)
  }

  /** Whom `stop` may be waiting for: the client of a handshake, or that of a session a worker serves. */
  datatype Awaited = Handshake | Client(worker: nat, id: Id)

  predicate WaitsFor(s: State, a: Awaited) {
    match a
    case Handshake => s.acceptor.Admitted? && !s.acceptor.greeted
    case Client(w, x) => Waits(s, w) && s.workers[w].list[s.workers[w].next] == x
  }

  /** The thread that `stop` is joining waits for a client, and so do all others that have not ended. */
  ghost predicate AllWait(s: State) {
    && (if s.stopper.JoiningAccept? then WaitsFor(s, Handshake)
        else s.stopper.JoiningWorkers? && Waits(s, s.stopper.joined))
    && forall w :: 0 <= w < |s.workers| ==> s.workers[w].Exited? || Waits(s, w)
  }

  lemma StepToTake(s: State) returns (e: Event)
    requires Ordered(s) && !s.running && !s.stopper.Stopped?
    ensures Enabled(s, e) && !e.StopBegin?
    ensures !ByThread(e) ==> AllWait(s)
  {
    if s.stopper.Clearing? {
      e := StopClear;
    } else if s.stopper.JoiningAccept? && !WaitsFor(s, Handshake) {
      e := match s.acceptor
        case Looping => AcceptTest
        case Waiting => AcceptFail
        case Admitted(_) => AcceptRefuse
        case Holding(_) => AcceptPool
        case Finished => StopJoin;
    } else if w :| 0 <= w < |s.workers| && !s.workers[w].Exited? && !Waits(s, w) {
      e := match s.workers[w]
        case Top => WorkTest(w)
        case Entered => WorkTake(w)
        case Processing(list, next) => if next < |list| then WorkProcess(w, true) else WorkReturn(w);
    } else if s.stopper.JoiningAccept? {
      e := Greet;
    } else if s.stopper.joined >= |s.workers| {
      e := StopClose;
    } else {
      var w := s.stopper.joined;
      e := if s.workers[w].Exited? then StopJoin else Answer(s.workers[w].list[s.workers[w].next]);
    }
  }

  lemma AllWaitIsStuck(s: State)
    requires Ordered(s) && !s.running && AllWait(s)
    ensures Stuck(s)
  {
    forall e | Enabled(s, e) ensures !ByThread(e) {
    }
  }

  /** And until it is through, a thread can move, except exactly while all that is left waits for silent
      clients: the threads cannot block each other. */
  lemma StopProceeds(workers: nat, events: seq<Event>)
    requires !Run(Start(workers), events).running && !Run(Start(workers), events).stopper.Stopped?
    ensures (exists e :: Enabled(Run(Start(workers), events), e) && ByThread(e))
            <==> !AllWait(Run(Start(workers), events))
    ensures exists e :: Enabled(Run(Start(workers), events), e) && !e.StopBegin?
  {
    Reached(workers, events);
    hide Run, Enabled, AllWait, Conserved, Counted, Active, Ordered;
    var s := Run(Start(workers), events);
    var e := StepToTake(s);
    if AllWait(s) {
      AllWaitIsStuck(s);
    }
  }

  lemma {:induction false} RunAppend(s: State, a: seq<Event>, b: seq<Event>)
    ensures Run(s, a + b) == Run(Run(s, a), b)
    decreases |a|
  {
    if a == [] {
      assert a + b == b;
    } else {
      assert (a + b)[1..] == a[1..] + b;
      hide Step;
      RunAppend(Step(s, a[0]), a[1..], b);
    }
  }

  lemma StaysStopping(s: State, e: Event)
    requires Ordered(s) && !s.running
    ensures Ordered(Step(s, e)) && !Step(s, e).running
  {
    OrderedKeeps(s, e);
  }

  /** Taking any enabled step until none is left ends in `Stopped`. */
  lemma {:induction false} StopsFrom(s: State) returns (more: seq<Event>)
    requires Ordered(s) && !s.running
    ensures Run(s, more).stopper.Stopped?
    decreases AcceptorRank(s.acceptor) + EnteredCount(s.workers), WorkLeft(s.workers), StopperRank(s), Silent(s)
  {
    hide Step, Enabled, Ordered, WorkLeft, EnteredCount, Silent, StopperRank;
    if s.stopper.Stopped? {
      more := [];
    } else {
      var e := StepToTake(s);
      StopDescends(s, e);
      StaysStopping(s, e);
      var rest := StopsFrom(Step(s, e));
      more := [e] + rest;
      assert more[1..] == rest;
    }
  }

  /** From every point of every run `stop` can be brought to its end, whether or not it has begun. */
  lemma StopEnds(workers: nat, events: seq<Event>)
    ensures exists more :: Run(Start(workers), events + more).stopper.Stopped?
  {
    Reached(workers, events);
    var s := Run(Start(workers), events);
    if s.running {
      StopBegins(s);
      var rest := StopsFrom(Step(s, StopBegin));
      var more := [StopBegin] + rest;
      assert more[1..] == rest;
      hide Step;
      RunAppend(Start(workers), events, more);
    } else {
      var more := StopsFrom(s);
      RunAppend(Start(workers), events, more);
    }
  }

  lemma StopBegins(s: State)
    requires Ordered(s) && s.running
    ensures Step(s, StopBegin) == s.(running := false, stopper := JoiningAccept)
    ensures Ordered(Step(s, StopBegin))
  {
  }

  // ---------- what the threads are for ----------

  /** While the daemon runs and the pool has room, a connection becomes an active session at the end of the
      pool; with TLS once its client has done the handshake. */
  lemma ConnectionIsPooled(s: State, max: nat, id: Id, tls: bool)
    requires s.running && s.acceptor.Looping? && |s.pool| < max && id !in s.created
    ensures var greeting := if tls then [Greet] else [];
            Run(s, [AcceptTest, AcceptAdmit(max, tls)] + greeting + [AcceptMake(id), AcceptPool])
            == s.(pool := s.pool + [id], total := s.total + 1, active := s.active + {id},
                  created := s.created + {id}, pooled := s.pooled + {id})
  {
    var greeting := if tls then [Greet] else [];
    var first, last := [AcceptTest, AcceptAdmit(max, tls)], [AcceptMake(id), AcceptPool];
    RunAppend(s, first + greeting, last);
    RunAppend(s, first, greeting);
    assert Run(s, first) == s.(acceptor := Admitted(!tls)) by {
      RunTwo(s, AcceptTest, AcceptAdmit(max, tls));
    }
    var t := s.(acceptor := Admitted(true));
    assert Run(s.(acceptor := Admitted(!tls)), greeting) == t;
    RunTwo(t, AcceptMake(id), AcceptPool);
  }

  lemma RunOne(s: State, e: Event)
    ensures Run(s, [e]) == Step(s, e)
  {
    hide Step;
    assert [e][1..] == [] && Run(Step(s, e), []) == Step(s, e);
  }

  lemma RunTwo(s: State, e: Event, f: Event)
    ensures Run(s, [e, f]) == Step(Step(s, e), f)
  {
    hide Step;
    assert [e, f][1..] == [f];
    RunOne(Step(s, e), f);
  }

  /** A worker's turn at each session of its list, from the `next` one on. */
  function Turns(w: nat, stays: seq<bool>): seq<Event> {
    if stays == [] then [] else [WorkProcess(w, stays[0])] + Turns(w, stays[1..])
  }

  /** The sessions that are closed. */
  function Gone(list: seq<Id>, stays: seq<bool>): set<Id>
    requires |list| == |stays|
  {
    set i | 0 <= i < |list| && !stays[i] :: list[i]
  }

  lemma GoneNext(list: seq<Id>, stays: seq<bool>)
    requires |list| == |stays| > 0
    ensures Gone(list, stays) == (if stays[0] then {} else {list[0]}) + Gone(list[1..], stays[1..])
  {
    var rest := Gone(list[1..], stays[1..]);
    forall x ensures x in Gone(list, stays) <==> x in (if stays[0] then {} else {list[0]}) + rest {
      if x in Gone(list, stays) {
        var i :| 0 <= i < |list| && !stays[i] && list[i] == x;
        assert i > 0 ==> list[1..][i - 1] == x && !stays[1..][i - 1];
      }
      if x in rest {
        var i :| 0 <= i < |list[1..]| && !stays[1..][i] && list[1..][i] == x;
        assert list[i + 1] == x && !stays[i + 1];
      }
    }
  }

  predicate Distinct(list: seq<Id>) {
    forall i, j :: 0 <= i < j < |list| ==> list[i] != list[j]
  }

  function Elements(list: seq<Id>): set<Id> {
    set x | x in list
  }

  lemma ElementsNext(list: seq<Id>)
    requires list != []
    ensures Elements(list) == {list[0]} + Elements(list[1..])
  {
    assert list == [list[0]] + list[1..];
  }

  /** The state once the worker has been through the rest of its list. */
  function Served(s: State, w: nat, list: seq<Id>, rest: seq<Id>, stays: seq<bool>): State
    requires w < |s.workers| && |rest| == |stays|
  {
    s.(workers := s.workers[w := Processing(list, |list|)], active := s.active - Gone(rest, stays),
      answered := s.answered - Elements(rest))
  }

  lemma TurnServes(s: State, w: nat, list: seq<Id>, next: nat, stays: bool)
    requires w < |s.workers| && s.workers[w] == Processing(list, next) && next < |list|
    requires list[next] in s.active && list[next] in s.answered
    ensures Step(s, WorkProcess(w, stays))
            == s.(workers := s.workers[w := Processing(list, next + 1)],
                  active := if stays then s.active else s.active - {list[next]},
                  answered := s.answered - {list[next]})
  {
  }

  lemma ServedNext(s: State, w: nat, list: seq<Id>, next: nat, stays: seq<bool>)
    requires w < |s.workers| && next < |list| && next + |stays| == |list|
    ensures var t := s.(workers := s.workers[w := Processing(list, next + 1)],
                        active := if stays[0] then s.active else s.active - {list[next]},
                        answered := s.answered - {list[next]});
            Served(t, w, list, list[next + 1..], stays[1..]) == Served(s, w, list, list[next..], stays)
  {
    var rest := list[next..];
    assert rest[1..] == list[next + 1..];
    GoneNext(rest, stays);
    ElementsNext(rest);
    hide Gone, Elements;
    assert s.workers[w := Processing(list, next + 1)][w := Processing(list, |list|)]
        == s.workers[w := Processing(list, |list|)];
  }

  lemma ServedAll(s: State, w: nat, list: seq<Id>)
    requires w < |s.workers| && s.workers[w] == Processing(list, |list|)
    ensures Served(s, w, list, [], []) == s
  {
    assert s.workers[w := Processing(list, |list|)] == s.workers;
    assert Gone([], []) == {} && Elements([]) == {};
  }

  predicate Answering(s: State, list: seq<Id>, next: nat) {
    forall i :: next <= i < |list| ==> list[i] in s.active && list[i] in s.answered
  }

  lemma {:induction false} TurnsServe(s: State, w: nat, list: seq<Id>, next: nat, stays: seq<bool>)
    requires w < |s.workers| && s.workers[w] == Processing(list, next)
    requires next + |stays| == |list| && Distinct(list) && Answering(s, list, next)
    ensures Run(s, Turns(w, stays)) == Served(s, w, list, list[next..], stays)
    decreases |stays|
  {
    hide Step, Served;
    if stays == [] {
      assert list[next..] == [];
      ServedAll(s, w, list);
    } else {
      var t := Step(s, WorkProcess(w, stays[0]));
      TurnServes(s, w, list, next, stays[0]);
      assert Turns(w, stays)[1..] == Turns(w, stays[1..]);
      assert Answering(t, list, next + 1);
      TurnsServe(t, w, list, next + 1, stays[1..]);
      ServedNext(s, w, list, next, stays);
    }
  }

  lemma {:induction false} TakenDistinct(pool: seq<Id>, active: set<Id>)
    requires Distinct(pool)
    ensures Distinct(Taken(pool, active))
  {
    if pool != [] {
      assert forall x :: x in pool[1..] ==> x != pool[0];
      TakenDistinct(pool[1..], active);
      TakenFrom(pool[1..], active);
    }
  }

  lemma {:induction false} TakenFrom(pool: seq<Id>, active: set<Id>)
    ensures forall x :: x in Taken(pool, active) ==> x in pool && x in active
  {
    if pool != [] {
      TakenFrom(pool[1..], active);
    }
  }

  lemma PoolDistinct(s: State)
    requires Conserved(s)
    ensures Distinct(s.pool)
  {
    forall i, j | 0 <= i < j < |s.pool| ensures s.pool[i] != s.pool[j] {
      assert Places(s, s.pool[i]) <= 1;
      if s.pool[i] == s.pool[j] {
        TwiceInList(s.pool, i, j);
      }
    }
  }

  lemma RoundBegins(s: State, w: nat)
    requires s.running && w < |s.workers| && s.workers[w].Top?
    ensures Run(s, [WorkTest(w), WorkTake(w)])
            == s.(pool := Left(s.pool, s.active), workers := s.workers[w := Processing(Taken(s.pool, s.active), 0)])
  {
    RunTwo(s, WorkTest(w), WorkTake(w));
  }

  lemma RoundEnds(s: State, w: nat, list: seq<Id>)
    requires w < |s.workers| && s.workers[w] == Processing(list, |list|)
    ensures Run(s, [WorkReturn(w)])
            == s.(workers := s.workers[w := Top], pool := s.pool + Taken(list, s.active),
                  retired := s.retired + Left(list, s.active))
  {
    RunOne(s, WorkReturn(w));
  }

  lemma RoundServes(s: State, w: nat, stays: seq<bool>)
    requires s.running && w < |s.workers| && s.workers[w].Top? && Conserved(s)
    requires |stays| == |Taken(s.pool, s.active)| && forall x :: x in Taken(s.pool, s.active) ==> x in s.answered
    ensures var list := Taken(s.pool, s.active);
            var active := s.active - Gone(list, stays);
            Run(s, [WorkTest(w), WorkTake(w)] + Turns(w, stays) + [WorkReturn(w)])
            == s.(pool := Left(s.pool, s.active) + Taken(list, active), active := active,
                  answered := s.answered - Elements(list), retired := s.retired + Left(list, active))
  {
    hide Step, Taken, Left, Gone, Elements, Turns, Run;
    var list := Taken(s.pool, s.active);
    var first := [WorkTest(w), WorkTake(w)];
    RunAppend(s, first + Turns(w, stays), [WorkReturn(w)]);
    RunAppend(s, first, Turns(w, stays));
    RoundBegins(s, w);
    PoolDistinct(s);
    TakenDistinct(s.pool, s.active);
    TakenFrom(s.pool, s.active);
    var t := Run(s, first);
    assert list[0..] == list;
    TurnsServe(t, w, list, 0, stays);
    var u := Run(t, Turns(w, stays));
    RoundEnds(u, w, list);
    assert u.workers[w := Top] == s.workers;
  }

  /** One round of a worker, at any point of any run, once the clients of the active sessions in the pool have
      answered: each session has its turn, those that stay active are back in the pool, in order, behind the
      ones that were not active, and the others are destroyed. */
  lemma WorkerServes(workers: nat, events: seq<Event>, w: nat, stays: seq<bool>)
    requires var s := Run(Start(workers), events);
             && s.running && w < |s.workers| && s.workers[w].Top? && |stays| == |Taken(s.pool, s.active)|
             && forall x :: x in Taken(s.pool, s.active) ==> x in s.answered
    ensures var s := Run(Start(workers), events);
            var list := Taken(s.pool, s.active);
            var active := s.active - Gone(list, stays);
            Run(s, [WorkTest(w), WorkTake(w)] + Turns(w, stays) + [WorkReturn(w)])
            == s.(pool := Left(s.pool, s.active) + Taken(list, active), active := active,
                  answered := s.answered - Elements(list), retired := s.retired + Left(list, active))
  {
    Reached(workers, events);
    RoundServes(Run(Start(workers), events), w, stays);
  }

  /** The state after `n` events of a schedule. */
  function After(s: State, schedule: nat -> Event, n: nat): State {
    if n == 0 then s else Step(After(s, schedule, n - 1), schedule(n - 1))
  }

  /** A schedule in which some thread moves or some client answers, whichever, until the end. */
  ghost predicate NeverIdle(s: State, schedule: nat -> Event) {
    forall n: nat :: BusyAt(s, schedule, n)
  }

  predicate BusyAt(s: State, schedule: nat -> Event, n: nat) {
    After(s, schedule, n).stopper.Stopped? || Enabled(After(s, schedule, n), schedule(n))
  }

  /** Once `stop` has begun, every schedule that is never idle brings it to its end. */
  lemma {:induction false} EveryScheduleStops(s: State, schedule: nat -> Event, n: nat, t: State) returns (end: nat)
    requires NeverIdle(s, schedule) && t == After(s, schedule, n) && Ordered(t) && !t.running
    ensures After(s, schedule, end).stopper.Stopped?
    decreases AcceptorRank(t.acceptor) + EnteredCount(t.workers), WorkLeft(t.workers), StopperRank(t), Silent(t)
  {
    hide Step, Enabled, Ordered, WorkLeft, EnteredCount, Silent, StopperRank, AcceptorRank, NeverIdle;
    if t.stopper.Stopped? {
      end := n;
    } else {
      var e := schedule(n);
      StepTaken(s, schedule, n);
      StopDescends(t, e);
      StaysStopping(t, e);
      end := EveryScheduleStops(s, schedule, n + 1, Step(t, e));
    }
  }

  lemma StepTaken(s: State, schedule: nat -> Event, n: nat)
    requires NeverIdle(s, schedule)
    requires var t := After(s, schedule, n); Ordered(t) && !t.running && !t.stopper.Stopped?
    ensures var t := After(s, schedule, n);
            Enabled(t, schedule(n)) && !schedule(n).StopBegin? && After(s, schedule, n + 1) == Step(t, schedule(n))
  {
    hide NeverIdle, Enabled, Ordered, Step;
    IdleNot(s, schedule, n);
    BegunAlready(After(s, schedule, n), schedule(n));
  }

  lemma IdleNot(s: State, schedule: nat -> Event, n: nat)
    requires NeverIdle(s, schedule)
    ensures After(s, schedule, n).stopper.Stopped? || Enabled(After(s, schedule, n), schedule(n))
  {
    hide After, Enabled;
    assert BusyAt(s, schedule, n);
  }

  lemma BegunAlready(s: State, e: Event)
    requires Ordered(s) && !s.running && Enabled(s, e)
    ensures !e.StopBegin?
  {
  }

  // ---------- exactly when it does ----------

  ghost predicate MovesAt(s: State, schedule: nat -> Event, n: nat) {
    After(s, schedule, n).stopper.Stopped? || Enabled(After(s, schedule, n), schedule(n))
      || Stuck(After(s, schedule, n))
  }

  /** A schedule in which a thread moves whenever one can; clients may be silent for as long as they like. */
  ghost predicate Diligent(s: State, schedule: nat -> Event) {
    forall n: nat :: MovesAt(s, schedule, n)
  }

  ghost predicate SameAt(s: State, schedule: nat -> Event, n: nat, m: nat) {
    m >= n ==> After(s, schedule, m) == After(s, schedule, n)
  }

  ghost predicate Settled(s: State, schedule: nat -> Event, n: nat) {
    forall m: nat :: SameAt(s, schedule, n, m)
  }

  predicate WaitsAt(s: State, schedule: nat -> Event, a: Awaited, n: nat, m: nat) {
    m >= n ==> WaitsFor(After(s, schedule, m), a)
  }

  /** From some time on the same client is waited for. */
  ghost predicate WaitsForever(s: State, schedule: nat -> Event, a: Awaited, n: nat) {
    forall m: nat :: WaitsAt(s, schedule, a, n, m)
  }

  lemma {:induction false} FirstChange(s: State, schedule: nat -> Event, n: nat, m: nat) returns (k: nat)
    requires m >= n && After(s, schedule, m) != After(s, schedule, n)
    ensures k >= n && After(s, schedule, k) == After(s, schedule, n)
    ensures After(s, schedule, k + 1) != After(s, schedule, n)
    decreases m
  {
    hide Step;
    if After(s, schedule, m - 1) == After(s, schedule, n) {
      k := m - 1;
    } else {
      k := FirstChange(s, schedule, n, m - 1);
    }
  }

  /** The rank cannot fall forever, so after some time nothing happens any more. */
  lemma {:induction false} Settles(s: State, schedule: nat -> Event, n: nat, t: State) returns (q: nat)
    requires t == After(s, schedule, n) && Ordered(t) && !t.running
    ensures q >= n && Settled(s, schedule, q) && Ordered(After(s, schedule, q)) && !After(s, schedule, q).running
    decreases AcceptorRank(t.acceptor) + EnteredCount(t.workers), WorkLeft(t.workers), StopperRank(t), Silent(t)
  {
    hide Step, Enabled, Ordered, WorkLeft, EnteredCount, Silent, StopperRank, AcceptorRank, After, SameAt;
    if m: nat :| !SameAt(s, schedule, n, m) {
      var k := ChangeAt(s, schedule, n, m);
      var e := schedule(k);
      BegunAlready(t, e);
      StopDescends(t, e);
      StaysStopping(t, e);
      q := Settles(s, schedule, k + 1, Step(t, e));
    } else {
      q := n;
    }
  }

  lemma ChangeAt(s: State, schedule: nat -> Event, n: nat, m: nat) returns (k: nat)
    requires !SameAt(s, schedule, n, m)
    ensures k >= n && Enabled(After(s, schedule, n), schedule(k))
    ensures After(s, schedule, k + 1) == Step(After(s, schedule, n), schedule(k))
  {
    k := FirstChange(s, schedule, n, m);
    hide Enabled;
  }

  lemma StillStopped(s: State, e: Event)
    requires Ordered(s) && s.stopper.Stopped?
    ensures Ordered(Step(s, e)) && Step(s, e).stopper.Stopped?
  {
    OrderedKeeps(s, e);
  }

  lemma {:induction false} StoppedLater(s: State, schedule: nat -> Event, n: nat, m: nat)
    requires Ordered(s) && n <= m && After(s, schedule, n).stopper.Stopped?
    ensures Ordered(After(s, schedule, m)) && After(s, schedule, m).stopper.Stopped?
  {
    hide Step, Ordered;
    OrderedAfter(s, schedule, m);
    if n < m {
      StoppedLater(s, schedule, n, m - 1);
      StillStopped(After(s, schedule, m - 1), schedule(m - 1));
    }
  }

  lemma {:induction false} OrderedAfter(s: State, schedule: nat -> Event, n: nat)
    requires Ordered(s)
    ensures Ordered(After(s, schedule, n))
  {
    hide Step, Ordered;
    if n > 0 {
      OrderedAfter(s, schedule, n - 1);
      OrderedKeeps(After(s, schedule, n - 1), schedule(n - 1));
    }
  }

  lemma StoppedWaitsNot(s: State, a: Awaited)
    requires Ordered(s) && s.stopper.Stopped?
    ensures !WaitsFor(s, a)
  {
  }

  /** A state that lasts while threads move when they can is stopped, or all that is left waits. */
  lemma SettledWaits(s: State, schedule: nat -> Event, q: nat)
    requires Diligent(s, schedule) && Settled(s, schedule, q)
    requires Ordered(After(s, schedule, q)) && !After(s, schedule, q).running
    requires !After(s, schedule, q).stopper.Stopped?
    ensures AllWait(After(s, schedule, q))
  {
    hide Enabled, Ordered, Step, Waits, Stuck, Nearer;
    var t := After(s, schedule, q);
    assert MovesAt(s, schedule, q) && SameAt(s, schedule, q, q + 1);
    if Enabled(t, schedule(q)) {
      BegunAlready(t, schedule(q));
      StopDescends(t, schedule(q));
      NotNearer(t);
      assert false;
    } else {
      StuckWaits(t);
    }
  }

  lemma NotNearer(s: State)
    ensures !Nearer(s, s)
  {
  }

  lemma StuckWaits(s: State)
    requires Ordered(s) && !s.running && !s.stopper.Stopped? && Stuck(s)
    ensures AllWait(s)
  {
    hide Enabled, Ordered, AllWait;
    var e := StepToTake(s);
  }

  lemma LastWaits(s: State, schedule: nat -> Event, q: nat) returns (a: Awaited)
    requires Settled(s, schedule, q) && AllWait(After(s, schedule, q))
    ensures WaitsForever(s, schedule, a, q)
  {
    hide After;
    var t := After(s, schedule, q);
    if t.stopper.JoiningAccept? {
      a := Handshake;
    } else {
      var w := t.stopper.joined;
      a := Client(w, t.workers[w].list[t.workers[w].next]);
    }
    forall m: nat ensures WaitsAt(s, schedule, a, q, m) {
      assert SameAt(s, schedule, q, m);
    }
  }

  /** Once `stop` has begun, and while threads move whenever they can, it comes to its end exactly unless
      some thread waits for one and the same client forever. */
  lemma StopsIff(s: State, schedule: nat -> Event, n: nat)
    requires Diligent(s, schedule) && Ordered(s) && !After(s, schedule, n).running
    ensures (exists end: nat :: After(s, schedule, end).stopper.Stopped?)
            <==> !(exists a, m: nat :: WaitsForever(s, schedule, a, m))
  {
    hide After, Ordered, Settled, AllWait, WaitsForever, Diligent;
    OrderedAfter(s, schedule, n);
    var q := Settles(s, schedule, n, After(s, schedule, n));
    if !After(s, schedule, q).stopper.Stopped? {
      SettledWaits(s, schedule, q);
      var a := LastWaits(s, schedule, q);
      assert WaitsForever(s, schedule, a, q);
    }
    if a, m: nat :| WaitsForever(s, schedule, a, m) {
      forall end: nat ensures !After(s, schedule, end).stopper.Stopped? {
        ForeverNeverStops(s, schedule, a, m, end);
      }
    }
  }

  lemma ForeverNeverStops(s: State, schedule: nat -> Event, a: Awaited, m: nat, end: nat)
    requires Ordered(s) && WaitsForever(s, schedule, a, m)
    ensures !After(s, schedule, end).stopper.Stopped?
  {
    hide After, Ordered, WaitsFor;
    if After(s, schedule, end).stopper.Stopped? {
      var k := if end <= m then m else end;
      assert WaitsAt(s, schedule, a, m, k);
      StoppedLater(s, schedule, end, k);
      StoppedWaitsNot(After(s, schedule, k), a);
    }
  }
}
