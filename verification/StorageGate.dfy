/** The gate that serializes every use of one database file in NFS mode (sqlite_storage.py). Its lock
    is a plain flag that anyone could release, so that only the right owner releases it, once and
    with no SQL worker left running, is a property of the protocol over all interleavings of
    sessions, synchronous connections and repeated cancellations. */
module StorageGate {
  import Runs

  // ---- _finish_io ------------------------------------------------------------------------

  datatype Outcome = Value(result: int) | Failure(error: string) | InnerCancelled

  /** What wakes the shielded wait: a cancellation of the waiter or the end of the SQL task. */
  datatype Wakeup = Cancellation | TaskEnded(outcome: Outcome)

  datatype Finished = Returned(result: int) | Raised(error: string) | RaisedCancelled

  /** Wait for the SQL task to the end however often the waiter is cancelled, then report its error,
      a cancellation, or its result. `drained` is the number of wakeups consumed. */
  method FinishIo(wakeups: seq<Wakeup>) returns (r: Finished, drained: nat)
    requires exists k :: 0 <= k < |wakeups| && wakeups[k].TaskEnded?
    ensures 0 < drained <= |wakeups| && wakeups[drained - 1].TaskEnded?
    ensures forall i :: 0 <= i < drained - 1 ==> wakeups[i].Cancellation?
    ensures match wakeups[drained - 1].outcome
            case Failure(error) => r == Raised(error)
            case InnerCancelled => r == RaisedCancelled
            case Value(v) => r == if drained == 1 then Returned(v) else RaisedCancelled
  {
    var cancelled := false;
    drained := 0;
    while true
      invariant drained < |wakeups|
      invariant forall i :: 0 <= i < drained ==> wakeups[i].Cancellation?
      invariant exists k :: drained <= k < |wakeups| && wakeups[k].TaskEnded?
      invariant cancelled <==> drained > 0
      decreases |wakeups| - drained
    {
      var wakeup := wakeups[drained];
      drained := drained + 1;
      match wakeup {
        case Cancellation => cancelled := true;
        case TaskEnded(outcome) =>
          match outcome {
            case Failure(error) => return Raised(error), drained;
            case InnerCancelled => return RaisedCancelled, drained;
            case Value(v) => return if cancelled then RaisedCancelled else Returned(v), drained;
          }
      }
    }
  }

  // ---- The protocol ------------------------------------------------------------------------

  datatype Kind = Session | Connection

  /** Where a user of the database stands. `Draining` waits for SQL that its own worker runs. */
  datatype Phase =
    | Waiting
    | Checking
    | Open
    | Draining(stop: bool, closing: bool)
    | Leaving
    | Over

  /** `sql` names the users whose SQL worker is running. */
  datatype State = State(locked: bool, kinds: map<nat, Kind>, phases: map<nat, Phase>, sql: set<nat>)

  datatype Event =
    | Enter(user: nat, kind: Kind)
    | Acquire(user: nat)
    | Accept(user: nat)       // the journal check passed
    | Refuse(user: nat)       // the journal check failed
    | BeginSql(user: nat)
    | EndSql(user: nat)       // the worker thread is done
    | Resume(user: nat)       // the waiter sees that it is done
    | Close(user: nat)        // the body ended or raised: close the session
    | Stop(user: nat)         // a cancellation is delivered
    | Release(user: nat)

  const START := State(false, map[], map[], {})

  predicate At(s: State, user: nat, phase: Phase) {
    user in s.phases && s.phases[user] == phase
  }

  predicate Enabled(s: State, e: Event) {
    match e
    case Enter(u, _) => u !in s.phases
    case Acquire(u) => At(s, u, Waiting) && !s.locked
    case Accept(u) => At(s, u, Checking)
    case Refuse(u) => At(s, u, Checking)
    case BeginSql(u) => At(s, u, Open)
    case EndSql(u) => u in s.sql
    case Resume(u) => u in s.phases && s.phases[u].Draining? && u !in s.sql
    case Close(u) => At(s, u, Open)
    case Stop(u) =>
      && u in s.phases && u in s.kinds && s.kinds[u].Session?
      && (s.phases[u].Waiting? || s.phases[u].Open? || s.phases[u].Draining?)
    case Release(u) => At(s, u, Leaving)
  }

  function Moved(s: State, user: nat, phase: Phase): State {
    s.(phases := s.phases[user := phase])
  }

  /** Closing is SQL of its own: it starts a worker. */
  function Closing(s: State, user: nat): State {
    Moved(s, user, Draining(false, true)).(sql := s.sql + {user})
  }

  /** An event that is not possible changes nothing. */
  function Next(s: State, e: Event): State {
    if !Enabled(s, e) then s
    else
      match e
      case Enter(u, kind) => Moved(s, u, Waiting).(kinds := s.kinds[u := kind])
      case Acquire(u) => Moved(s, u, Checking).(locked := true)
      case Accept(u) => Moved(s, u, Open)
      case Refuse(u) => Moved(s, u, Leaving)
      case BeginSql(u) => Moved(s, u, Draining(false, false)).(sql := s.sql + {u})
      case EndSql(u) => s.(sql := s.sql - {u})
      case Resume(u) =>
        if s.phases[u].closing then Moved(s, u, Leaving)
        else if s.phases[u].stop then Closing(s, u)
        else Moved(s, u, Open)
      case Close(u) => Closing(s, u)
      case Stop(u) =>
        if s.phases[u].Waiting? then Moved(s, u, Over)
        else if s.phases[u].Open? then Closing(s, u)
        else Moved(s, u, s.phases[u].(stop := true))
      case Release(u) => Moved(s, u, Over).(locked := false)
  }

  function After(events: seq<Event>): State {
    Runs.After(START, Next, events)
  }

  /** An interleaving of users, workers and cancellations. */
  ghost predicate IsRun(events: seq<Event>) {
    Runs.IsRun(START, Enabled, Next, events)
  }

  // ---- Safety ------------------------------------------------------------------------------

  predicate Owns(s: State, user: nat) {
    user in s.phases
    && (s.phases[user].Checking? || s.phases[user].Open? || s.phases[user].Draining? || s.phases[user].Leaving?)
  }

  /** The lock is taken exactly when someone owns it, at most one does, and SQL runs only for an
      owner that waits for it. */
  ghost predicate Safe(s: State) {
    && (s.locked <==> exists u :: Owns(s, u))
    && (forall u, v :: Owns(s, u) && Owns(s, v) ==> u == v)
    && (forall u :: u in s.sql ==> u in s.phases && s.phases[u].Draining?)
  }

  /** What one event changes for one user. */
  lemma StepOf(s: State, e: Event, u: nat)
    requires Enabled(s, e)
    ensures e == Acquire(u) ==>
              At(s, u, Waiting) && !Owns(s, u) && Owns(Next(s, e), u) && u in Next(s, e).phases
              && !At(Next(s, e), u, Waiting)
    ensures e == Release(u) ==> Owns(s, u) && !Owns(Next(s, e), u) && At(Next(s, e), u, Over)
    ensures e != Acquire(u) && e != Release(u) ==> Owns(Next(s, e), u) == Owns(s, u)
    ensures u !in Next(s, e).phases ==> u !in s.phases
    ensures At(Next(s, e), u, Waiting) ==> u !in s.phases || At(s, u, Waiting)
    ensures At(s, u, Over) ==> At(Next(s, e), u, Over)
  {
  }

  lemma StepOfAll(s: State, e: Event)
    requires Enabled(s, e)
    ensures Next(s, e).locked <==> e.Acquire? || (s.locked && !e.Release?)
    ensures forall u :: u != e.user ==> Owns(Next(s, e), u) == Owns(s, u)
    ensures (forall u :: u in s.sql ==> u in s.phases && s.phases[u].Draining?)
            ==> forall u :: u in Next(s, e).sql ==> u in Next(s, e).phases && Next(s, e).phases[u].Draining?
  {
  }

  lemma StepIsSafe(s: State, e: Event)
    requires Safe(s) && Enabled(s, e)
    ensures Safe(Next(s, e))
  {
    StepOf(s, e, e.user);
    StepOfAll(s, e);
    hide Enabled, Next, Owns, At;
    var t := Next(s, e);
    if s.locked && !e.Release? {
      var o :| Owns(s, o);
      assert Owns(t, o);
    } else if e.Acquire? {
      assert Owns(t, e.user);
    }
  }

  lemma {:induction false} RunIsSafe(events: seq<Event>)
    requires IsRun(events)
    ensures Safe(After(events))
  {
    if |events| == 0 {
    } else {
      Runs.Last(START, Enabled, Next, events);
      RunIsSafe(events[..|events| - 1]);
      StepIsSafe(After(events[..|events| - 1]), events[|events| - 1]);
    }
  }

  function Count(events: seq<Event>, e: Event): nat {
    if |events| == 0 then 0
    else Count(events[..|events| - 1], e) + if events[|events| - 1] == e then 1 else 0
  }

  /** Bookkeeping over any run: a user has acquired once more than it has released exactly while it
      owns the gate, and a user that waits, or was cancelled while waiting, has done neither. */
  lemma {:induction false} Ledger(events: seq<Event>, u: nat)
    requires IsRun(events)
    ensures Count(events, Acquire(u)) == Count(events, Release(u)) + if Owns(After(events), u) then 1 else 0
    ensures Count(events, Acquire(u)) <= 1
    ensures u !in After(events).phases || At(After(events), u, Waiting) ==> Count(events, Acquire(u)) == 0
  {
    hide Enabled, Next, Owns, At, Runs.IsRun;
    if |events| > 0 {
      Runs.Last(START, Enabled, Next, events);
      Ledger(events[..|events| - 1], u);
      StepOf(After(events[..|events| - 1]), events[|events| - 1], u);
    } else {
      Nobody(u);
    }
  }

  lemma Nobody(u: nat)
    ensures !Owns(START, u) && u !in START.phases
  {
  }

  /** While the gate has not been released by its owner, nobody else can take it. */
  lemma {:induction false} StillOwns(events: seq<Event>, i: nat, j: nat, u: nat)
    requires IsRun(events) && i < j <= |events| && events[i] == Acquire(u)
    requires forall k :: i < k < j ==> events[k] != Release(u)
    ensures Owns(After(events[..j]), u)
  {
    hide Enabled, Next, Owns, At;
    Runs.Prefix(START, Enabled, Next, events, j - 1);
    StepOf(After(events[..j - 1]), events[j - 1], u);
    if i + 1 < j {
      StillOwns(events, i, j - 1, u);
    }
  }

  /** Between two acquisitions the first owner has released the gate. */
  lemma Exclusive(events: seq<Event>, i: nat, j: nat)
    requires IsRun(events) && i < j < |events| && events[i].Acquire? && events[j].Acquire?
    ensures exists k :: i < k < j && events[k] == Release(events[i].user)
  {
    if forall k :: i < k < j ==> events[k] != Release(events[i].user) {
      StillOwns(events, i, j, events[i].user);
      Runs.Prefix(START, Enabled, Next, events, j);
      RunIsSafe(events[..j]);
      assert false;
    }
  }

  /** The gate is released by its owner, while it is taken, and with no SQL of anyone running. */
  lemma ReleasedIdle(events: seq<Event>, j: nat)
    requires IsRun(events) && j < |events| && events[j].Release?
    ensures After(events[..j]).locked && Owns(After(events[..j]), events[j].user)
    ensures After(events[..j]).sql == {}
  {
    Runs.Prefix(START, Enabled, Next, events, j);
    RunIsSafe(events[..j]);
    var s := After(events[..j]);
    assert Owns(s, events[j].user);
    forall u | u in s.sql ensures false {
      assert Owns(s, u);
    }
  }

  /** SQL runs only for the owner, and only one worker runs at a time. */
  lemma OneWorker(events: seq<Event>, u: nat, v: nat)
    requires IsRun(events) && u in After(events).sql
    ensures Owns(After(events), u) && (v in After(events).sql ==> u == v)
  {
    RunIsSafe(events);
    assert Owns(After(events), u);
    if v in After(events).sql {
      assert Owns(After(events), v);
    }
  }

  lemma {:induction false} OverForever(events: seq<Event>, i: nat, u: nat)
    requires IsRun(events) && i <= |events| && At(After(events[..i]), u, Over)
    ensures At(After(events), u, Over)
    ensures forall k :: i <= k < |events| ==> events[k] != Acquire(u)
  {
    hide Enabled, Next, Owns;
    if i < |events| {
      var n := |events| - 1;
      Runs.Last(START, Enabled, Next, events);
      assert events[..n][..i] == events[..i];
      OverForever(events[..n], i, u);
      StepOf(After(events[..n]), events[n], u);
    } else {
      assert events[..i] == events;
    }
  }

  /** A waiter that is cancelled never owns the gate, before or after. */
  lemma CancelledWaiterNeverOwns(events: seq<Event>, i: nat)
    requires IsRun(events) && i < |events| && events[i].Stop? && At(After(events[..i]), events[i].user, Waiting)
    ensures Acquire(events[i].user) !in events
  {
    var u := events[i].user;
    Runs.Prefix(START, Enabled, Next, events, i);
    OverForever(events, i + 1, u);
    Ledger(events[..i], u);
    forall k | 0 <= k < |events| ensures events[k] != Acquire(u) {
      if k < i {
        CountsMembers(events[..i], k);
        assert events[..i][k] == events[k];
      } else if k > i {
        assert i + 1 <= k < |events|;
      }
    }
  }

  lemma {:induction false} CountsMembers(events: seq<Event>, k: nat)
    requires k < |events|
    ensures Count(events, events[k]) > 0
  {
    if k < |events| - 1 {
      CountsMembers(events[..|events| - 1], k);
    }
  }

  // ---- The gate is never leaked --------------------------------------------------------------

  /** What the owner still has to do, however often it has been cancelled. */
  function WayOut(s: State, u: nat): (way: seq<Event>)
    requires Owns(s, u)
  {
    match s.phases[u]
    case Checking => [Refuse(u), Release(u)]
    case Open => [Close(u), EndSql(u), Resume(u), Release(u)]
    case Draining(stop, closing) =>
      (if u in s.sql then [EndSql(u)] else [])
      + (if closing then [Resume(u), Release(u)]
         else if stop then [Resume(u), EndSql(u), Resume(u), Release(u)]
         else [Resume(u), Close(u), EndSql(u), Resume(u), Release(u)])
    case Leaving => [Release(u)]
  }

  predicate Follows(s: State, events: seq<Event>)
    decreases |events|
  {
    |events| > 0 ==> Enabled(s, events[0]) && Follows(Next(s, events[0]), events[1..])
  }

  function Followed(s: State, events: seq<Event>): State
    requires Follows(s, events)
    decreases |events|
  {
    if |events| == 0 then s else Followed(Next(s, events[0]), events[1..])
  }

  /** From any state an owner can, without anyone's help, drain its SQL and release the gate. */
  lemma OwnerCanLeave(s: State, u: nat)
    requires Owns(s, u) && (u in s.sql ==> s.phases[u].Draining?)
    ensures Follows(s, WayOut(s, u)) && !Followed(s, WayOut(s, u)).locked && u !in Followed(s, WayOut(s, u)).sql
    decreases |WayOut(s, u)|
  {
    var way := WayOut(s, u);
    var t := Next(s, way[0]);
    if |way| > 1 {
      assert way[1..] == WayOut(t, u);
      OwnerCanLeave(t, u);
    }
  }

  // ---- The gate can be taken --------------------------------------------------------------------

  lemma {:induction false} FollowsThen(s: State, a: seq<Event>, b: seq<Event>)
    requires Follows(s, a) && Follows(Followed(s, a), b)
    ensures Follows(s, a + b) && Followed(s, a + b) == Followed(Followed(s, a), b)
    decreases |a|
  {
    if |a| == 0 {
      assert a + b == b;
    } else {
      FollowsThen(Next(s, a[0]), a[1..], b);
      assert (a + b)[1..] == a[1..] + b;
    }
  }

  /** What one event leaves alone. */
  lemma WaitersStay(s: State, e: Event, u: nat)
    requires Enabled(s, e) && e.user != u
    ensures u in s.phases ==> u in Next(s, e).phases && Next(s, e).phases[u] == s.phases[u]
  {
  }

  /** On its way out an owner disturbs no waiter. */
  lemma {:induction false} WayOutKeeps(s: State, u: nat, way: seq<Event>, w: nat)
    requires Follows(s, way) && w != u && At(s, w, Waiting) && forall i :: 0 <= i < |way| ==> way[i].user == u
    ensures At(Followed(s, way), w, Waiting)
    decreases |way|
  {
    hide Next, Enabled;
    if |way| > 0 {
      WaitersStay(s, way[0], w);
      WayOutKeeps(Next(s, way[0]), u, way[1..], w);
    }
  }

  /** From every safe state each waiter can get the gate: at once if it is free, and otherwise after
      its owner, whatever that is doing, has drained its SQL and left. */
  lemma WaiterGetsIn(s: State, w: nat) returns (way: seq<Event>)
    requires Safe(s) && At(s, w, Waiting)
    ensures Follows(s, way) && Owns(Followed(s, way), w)
    ensures !s.locked ==> way == [Acquire(w)]
  {
    way := [];
    if s.locked {
      var u :| Owns(s, u);
      way := WayOut(s, u);
      OwnerCanLeave(s, u);
      WayOutKeeps(s, u, way, w);
    }
    TakesFree(Followed(s, way), w);
    FollowsThen(s, way, [Acquire(w)]);
    way := way + [Acquire(w)];
  }

  lemma TakesFree(s: State, w: nat)
    requires !s.locked && At(s, w, Waiting)
    ensures Follows(s, [Acquire(w)]) && Owns(Followed(s, [Acquire(w)]), w)
  {
    assert [Acquire(w)][1..] == [];
    assert Followed(s, [Acquire(w)]) == Followed(Next(s, Acquire(w)), []);
  }

  /** An owner whose journal check passes gets to run its SQL and goes on when that is done; then it
      can run more. */
  lemma OwnerWorks(s: State, u: nat)
    requires At(s, u, Checking) && u !in s.sql
    ensures Enabled(s, Accept(u)) && At(Next(s, Accept(u)), u, Open)
    ensures var open := Next(s, Accept(u));
            && Enabled(open, BeginSql(u)) && Next(open, BeginSql(u)).sql == s.sql + {u}
            && var running := Next(open, BeginSql(u));
               && Enabled(running, EndSql(u)) && !Enabled(running, Resume(u))
               && Enabled(Next(running, EndSql(u)), Resume(u))
               && Next(Next(running, EndSql(u)), Resume(u)) == open
  {
    var open := Next(s, Accept(u));
    var done := Next(Next(open, BeginSql(u)), EndSql(u));
    assert done.sql == open.sql;
    assert Next(done, Resume(u)).phases == open.phases;
  }

  /** The user has been cancelled and has nothing left but to drain, close and leave. */
  predicate Stopped(s: State, u: nat) {
    && u in s.phases
    && match s.phases[u]
       case Draining(stop, closing) => stop || closing
       case Leaving => true
       case Over => true
       case _ => false
  }

  lemma StopStops(s: State, u: nat)
    requires Enabled(s, Stop(u))
    ensures Stopped(Next(s, Stop(u)), u)
  {
  }

  lemma StaysStopped(s: State, e: Event, u: nat)
    requires Enabled(s, e) && Stopped(s, u)
    ensures Stopped(Next(s, e), u) && e != BeginSql(u)
  {
  }

  /** After a cancellation a user never opens again and starts no SQL but the close. */
  lemma {:induction false} CancelledOnlyCloses(events: seq<Event>, i: nat)
    requires IsRun(events) && i < |events| && events[i].Stop?
    ensures Stopped(After(events), events[i].user)
    ensures forall k :: i < k < |events| ==> events[k] != BeginSql(events[i].user)
  {
    hide Enabled, Next, Stopped;
    var n := |events| - 1;
    Runs.Last(START, Enabled, Next, events);
    if i == n {
      StopStops(After(events[..n]), events[n].user);
    } else {
      CancelledOnlyCloses(events[..n], i);
      StaysStopped(After(events[..n]), events[n], events[i].user);
    }
  }
}
