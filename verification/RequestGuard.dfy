/** The reservation that admits one user request at a time, across all chats and sessions
    (chainlit_requests.py). Handlers, tasks and done callbacks interleave freely; `reserved` is
    accounted for by exactly one of them. */
module RequestGuard {
  import opened Wrappers
  import Runs

  type Session = nat
  type Task = nat

  /** A request inside the wrapped handler: its session and the task it found there. */
  datatype Claim = Claim(session: Session, previous: Option<Task>)

  /** `accepted` tasks carry a release callback; `pending` callbacks are scheduled and have not run.
      `seen` are the requests decided so far and `requests` the tasks that wrapped handlers started. */
  datatype State = State(
    reserved: bool, seen: set<nat>, claims: map<nat, Claim>, current: map<Session, Task>,
    known: set<Task>, unfinished: set<Task>, accepted: set<Task>, pending: set<Task>, requests: set<Task>)

  datatype Event =
    | Admit(request: nat, session: Session)
    | Reject(request: nat, session: Session)
    | Start(request: nat, task: Task)           // the wrapped handler schedules its work
    | Return(request: nat)
    | Raise(request: nat)
    | Replace(session: Session, task: Task)     // some other handler of the session schedules a task
    | Finish(task: Task)
    | Release(task: Task)                       // a done callback runs

  const START := State(false, {}, map[], map[], {}, {}, {}, {}, {})

  function CurrentTask(s: State, session: Session): Option<Task> {
    if session in s.current then Some(s.current[session]) else None
  }

  predicate SessionBusy(s: State, session: Session) {
    session in s.current && s.current[session] in s.unfinished
  }

  /** The model may be busy at any time, so a request can always be rejected. */
  predicate Enabled(s: State, e: Event) {
    match e
    case Admit(r, session) => r !in s.seen && !s.reserved && !SessionBusy(s, session)
    case Reject(r, _) => r !in s.seen
    case Start(r, t) => r in s.claims && t !in s.known
    case Return(r) => r in s.claims
    case Raise(r) => r in s.claims
    case Replace(_, t) => t !in s.known
    case Finish(t) => t in s.unfinished
    case Release(t) => t in s.pending
  }

  function Scheduled(s: State, session: Session, t: Task): State {
    s.(current := s.current[session := t], known := s.known + {t}, unfinished := s.unfinished + {t})
  }

  function Next(s: State, e: Event): State {
    if !Enabled(s, e) then s
    else
      match e
      case Admit(r, session) => 
        s.(reserved := true, seen := s.seen + {r},
           claims := s.claims[r := Claim(session, CurrentTask(s, session))])
      case Reject(r, _) => s.(seen := s.seen + {r})
      case Start(r, t) => Scheduled(s, s.claims[r].session, t).(requests := s.requests + {t})
      case Return(r) =>
        var task := CurrentTask(s, s.claims[r].session);
        var left := s.(claims := s.claims - {r});
        if task.None? || task == s.claims[r].previous then left.(reserved := false)
        else if task.value in s.unfinished then left.(accepted := s.accepted + {task.value})
        else left.(pending := s.pending + {task.value})
      case Raise(r) => s.(claims := s.claims - {r}, reserved := false)
      case Replace(session, t) => Scheduled(s, session, t)
      case Finish(t) =>
        s.(unfinished := s.unfinished - {t}, accepted := s.accepted - {t},
           pending := if t in s.accepted then s.pending + {t} else s.pending)
      case Release(t) => s.(pending := s.pending - {t}, reserved := false)
  }

  ghost predicate IsRun(events: seq<Event>) {
    Runs.IsRun(START, Enabled, Next, events)
  }

  function After(events: seq<Event>): State {
    Runs.After(START, Next, events)
  }

  // ---- One reservation -----------------------------------------------------------------------

  /** Claims inside the wrapped handler, accepted unfinished tasks and pending callbacks. */
  function Holders(s: State): nat {
    |s.claims.Keys| + |s.accepted| + |s.pending|
  }

  ghost predicate Accounted(s: State) {
    Holders(s) == (if s.reserved then 1 else 0) && Tracked(s)
  }

  /** What the tasks in the various sets have in common. */
  ghost predicate Tracked(s: State) {
    && s.accepted <= s.unfinished && s.unfinished <= s.known && s.pending <= s.known
    && s.pending !! s.unfinished && s.claims.Keys <= s.seen && s.requests <= s.known
    && forall x :: x in s.current ==> s.current[x] in s.known
  }

  lemma StepTracks(s: State, e: Event)
    requires Tracked(s) && Enabled(s, e)
    ensures Tracked(Next(s, e))
  {
  }

  lemma Grown(x: set<nat>, a: nat)
    requires a !in x
    ensures |x + {a}| == |x| + 1
  {
  }

  lemma Shrunk(x: set<nat>, a: nat)
    requires a in x
    ensures |x - {a}| == |x| - 1
  {
  }

  lemma AdmitCounts(s: State, r: nat, session: Session)
    requires Accounted(s) && Enabled(s, Admit(r, session))
    ensures Holders(Next(s, Admit(r, session))) == 1
  {
    assert r !in s.claims.Keys;
    Grown(s.claims.Keys, r);
    assert Next(s, Admit(r, session)).claims.Keys == s.claims.Keys + {r};
  }

  lemma RaiseCounts(s: State, r: nat)
    requires Accounted(s) && r in s.claims
    ensures Holders(Next(s, Raise(r))) == 0 && s.accepted == {} && s.pending == {}
  {
    Shrunk(s.claims.Keys, r);
    assert Next(s, Raise(r)).claims.Keys == s.claims.Keys - {r};
    assert |s.accepted| == 0 && |s.pending| == 0;
  }

  lemma ReturnCounts(s: State, r: nat)
    requires Accounted(s) && r in s.claims
    ensures Holders(Next(s, Return(r))) == if Next(s, Return(r)).reserved then 1 else 0
  {
    RaiseCounts(s, r);
    assert Next(s, Return(r)).claims == Next(s, Raise(r)).claims;
  }

  lemma FinishCounts(s: State, t: Task)
    requires Accounted(s) && t in s.unfinished
    ensures Holders(Next(s, Finish(t))) == if Next(s, Finish(t)).reserved then 1 else 0
  {
    if t in s.accepted {
      Shrunk(s.accepted, t);
      assert |s.pending| == 0;
      assert s.pending == {};
    } else {
      assert s.accepted - {t} == s.accepted;
    }
  }

  lemma ReleaseCounts(s: State, t: Task)
    requires Accounted(s) && t in s.pending
    ensures Holders(Next(s, Release(t))) == 0
  {
    Shrunk(s.pending, t);
  }

  /** Each event moves the reservation from one holder to the next. */
  lemma StepCounts(s: State, e: Event)
    requires Accounted(s) && Enabled(s, e)
    ensures Holders(Next(s, e)) == if Next(s, e).reserved then 1 else 0
  {
    hide Tracked;
    match e
    case Admit(r, session) => AdmitCounts(s, r, session);
    case Return(r) => ReturnCounts(s, r);
    case Raise(r) => RaiseCounts(s, r);
    case Finish(t) => FinishCounts(s, t);
    case Release(t) => ReleaseCounts(s, t);
    case Reject(_, _) =>
    case Start(_, _) =>
    case Replace(_, _) =>
  }

  lemma StepAccounts(s: State, e: Event)
    requires Accounted(s) && Enabled(s, e)
    ensures Accounted(Next(s, e))
  {
    hide Tracked, Holders, Enabled, Next;
    StepTracks(s, e);
    StepCounts(s, e);
  }

  /** In every reachable state the reservation is held exactly once, or not at all. */
  lemma {:induction false} HeldOnce(events: seq<Event>)
    requires IsRun(events)
    ensures Accounted(After(events))
  {
    if |events| == 0 {
    } else {
      Runs.Last(START, Enabled, Next, events);
      HeldOnce(events[..|events| - 1]);
      StepAccounts(After(events[..|events| - 1]), events[|events| - 1]);
    }
  }

  /** A new request is admitted whenever the slot is free and its session has no task that still works. */
  lemma AdmittedWhenIdle(s: State, r: nat, session: Session)
    requires r !in s.seen && !s.reserved
    requires session in s.current ==> s.current[session] !in s.unfinished
    ensures Enabled(s, Admit(r, session)) && Next(s, Admit(r, session)).reserved
    ensures r in Next(s, Admit(r, session)).claims && Next(s, Admit(r, session)).claims[r].session == session
  {
  }

  /** A wrapped handler that returns keeps the reservation exactly if its session has another task than
      before, and then a callback of that task frees it: when the task ends, or soon if it has. */
  lemma ReturnDecides(s: State, r: nat)
    requires Accounted(s) && r in s.claims
    ensures var session, n := s.claims[r].session, Next(s, Return(r));
            && r !in n.claims
            && (n.reserved <==> session in s.current && s.claims[r].previous != Some(s.current[session]))
            && (n.reserved ==> if s.current[session] in s.unfinished then n.accepted == {s.current[session]}
                               else n.pending == {s.current[session]})
  {
    RaiseCounts(s, r);
  }

  /** The callback of the only accepted or pending task frees the slot. */
  lemma TaskFrees(s: State, t: Task) returns (way: seq<Event>)
    requires Accounted(s) && (t in s.accepted || t in s.pending)
    ensures Runs.IsRun(s, Enabled, Next, way) && !Runs.After(s, Next, way).reserved
    ensures Accounted(Runs.After(s, Next, way))
  {
    hide Holders, Runs.IsRun, Runs.After;
    Runs.Empty(s, Enabled, Next);
    way := [];
    if t in s.accepted {
      StepAccounts(s, Finish(t));
      Runs.Extend(s, Enabled, Next, [], Finish(t));
      way := [] + [Finish(t)];
    }
    var n := Runs.After(s, Next, way);
    StepAccounts(n, Release(t));
    Runs.Extend(s, Enabled, Next, way, Release(t));
    way := way + [Release(t)];
  }

  /** The slot is never lost: from every accounted state some events free it. */
  lemma SlotFrees(s: State) returns (way: seq<Event>)
    requires Accounted(s)
    ensures Runs.IsRun(s, Enabled, Next, way) && !Runs.After(s, Next, way).reserved
    ensures Accounted(Runs.After(s, Next, way))
  {
    hide Runs.IsRun, Runs.After;
    Runs.Empty(s, Enabled, Next);
    way := [];
    if s.claims != map[] {
      var r :| r in s.claims;
      ReturnDecides(s, r);
      StepAccounts(s, Return(r));
      Runs.Extend(s, Enabled, Next, [], Return(r));
      way := [] + [Return(r)];
    }
    var n := Runs.After(s, Next, way);
    if n.reserved {
      var t := SomeTask(n);
      var rest := TaskFrees(n, t);
      Runs.Append(s, Enabled, Next, way, rest);
      way := way + rest;
    }
  }

  lemma SomeTask(s: State) returns (t: Task)
    requires Accounted(s) && s.reserved && s.claims == map[]
    ensures t in s.accepted || t in s.pending
  {
    assert s.claims.Keys == {};
    t :| t in s.accepted + s.pending;
  }

  // ---- One request ---------------------------------------------------------------------------

  /** What the wrapped handlers are relied on for: they schedule a task or raise only while no task of
      theirs is working, and nothing replaces a working task of theirs before they return. */
  predicate Polite(s: State, e: Event) {
    match e
    case Start(_, _) => Working(s) == {}
    case Raise(_) => Working(s) == {}
    case Replace(session, _) => (exists r :: r in s.claims && s.claims[r].session == session) ==> Working(s) == {}
    case _ => true
  }

  predicate PoliteStep(s: State, e: Event) {
    Enabled(s, e) && Polite(s, e)
  }

  /** The tasks of user requests that have not finished. */
  function Working(s: State): set<Task> {
    s.requests * s.unfinished
  }

  /** The request whose handler is still inside and has scheduled this task. */
  ghost predicate StartedBy(s: State, r: nat, t: Task) {
    r in s.claims && CurrentTask(s, s.claims[r].session) == Some(t) && s.claims[r].previous != Some(t)
  }

  /** Every working request holds the reservation: through its task or its handler. */
  ghost predicate Covered(s: State) {
    && Accounted(s)
    && (forall r :: r in s.claims && s.claims[r].previous.Some? ==>
           s.claims[r].previous.value in s.known - s.unfinished)
    && forall t :: t in Working(s) ==> t in s.accepted || exists r :: StartedBy(s, r, t)
  }

  /** Holders are few: with one of a kind there is no other. */
  lemma Alone(s: State)
    requires Accounted(s)
    ensures forall r, q :: r in s.claims && q in s.claims ==> r == q
    ensures forall r, t :: r in s.claims ==> t !in s.accepted && t !in s.pending
    ensures forall t, u :: t in s.accepted && u in s.accepted ==> t == u
    ensures forall t, u :: t in s.accepted && u in s.pending ==> false
    ensures !s.reserved ==> s.claims == map[] && s.accepted == {} && s.pending == {}
  {
    AtMostOne(s.claims.Keys);
    AtMostOne(s.accepted);
    assert s.claims.Keys == {} ==> s.claims == map[];
  }

  lemma AtMostOne(x: set<nat>)
    requires |x| <= 1
    ensures forall a, b :: a in x && b in x ==> a == b
  {
    forall a, b | a in x && b in x ensures a == b {
      assert |x - {a}| == |x| - 1;
      assert x - {a} == {};
    }
  }

  lemma StepCovers(s: State, e: Event)
    requires Covered(s) && PoliteStep(s, e)
    ensures Covered(Next(s, e))
  {
    hide Holders;
    var t := Next(s, e);
    StepAccounts(s, e);
    Alone(s);
    forall x | x in Working(t) ensures x in t.accepted || exists r :: StartedBy(t, r, x) {
      if e.Start? && x == e.task {
        assert StartedBy(t, e.request, x);
      } else {
        assert x in Working(s);
        if x !in s.accepted {
          var r :| StartedBy(s, r, x);
          assert t.accepted == s.accepted + {x} || StartedBy(t, r, x);
        }
      }
    }
  }

  // ---- The reliance is exact ---------------------------------------------------------------------

  lemma {:induction false} FreshNumber(x: set<nat>) returns (n: nat)
    ensures n !in x && forall m :: m in x ==> m < n
  {
    if x == {} {
      n := 0;
    } else {
      var m :| m in x;
      n := FreshNumber(x - {m});
      if n <= m {
        n := m + 1;
      }
      assert forall k :: k in x ==> k == m || k in x - {m};
    }
  }

  /** Possible from here, with both of these tasks working at the end. */
  ghost predicate BothWork(s: State, more: seq<Event>, a: Task, b: Task) {
    && Runs.IsRun(s, Enabled, Next, more) && a != b
    && a in Working(Runs.After(s, Next, more)) && b in Working(Runs.After(s, Next, more))
  }

  /** With the slot free, a request on another session starts work beside any task that is working. */
  lemma AdmitBeside(s: State, before: seq<Event>, x: Task) returns (more: seq<Event>, y: Task)
    requires Runs.IsRun(s, Enabled, Next, before)
    requires var t := Runs.After(s, Next, before); !t.reserved && Tracked(t) && x in Working(t)
    ensures BothWork(s, more, x, y)
  {
    var t := Runs.After(s, Next, before);
    var r := FreshNumber(t.seen);
    var session := FreshNumber(t.current.Keys);
    y := FreshNumber(t.known);
    Runs.Extend(s, Enabled, Next, before, Admit(r, session));
    Runs.Extend(s, Enabled, Next, before + [Admit(r, session)], Start(r, y));
    more := before + [Admit(r, session)] + [Start(r, y)];
  }

  /** A request whose task was replaced returns, the other task ends, and its callback frees the slot. */
  lemma ReturnsElsewhere(s: State, r: nat, t: Task, x: Task) returns (more: seq<Event>)
    requires Accounted(s) && r in s.claims && x in Working(s) && x != t
    requires CurrentTask(s, s.claims[r].session) == Some(t) && s.claims[r].previous != Some(t) && t in s.unfinished
    ensures Runs.IsRun(s, Enabled, Next, more)
    ensures var u := Runs.After(s, Next, more); !u.reserved && Tracked(u) && x in Working(u)
  {
    var s1 := Next(s, Return(r));
    assert s1 == s.(claims := s.claims - {r}, accepted := s.accepted + {t});
    StepTracks(s, Return(r));
    var s2 := Next(s1, Finish(t));
    StepTracks(s1, Finish(t));
    StepTracks(s2, Release(t));
    Runs.Extend(s, Enabled, Next, [], Return(r));
    Runs.Extend(s, Enabled, Next, [] + [Return(r)], Finish(t));
    Runs.Extend(s, Enabled, Next, [] + [Return(r)] + [Finish(t)], Release(t));
    more := [] + [Return(r)] + [Finish(t)] + [Release(t)];
  }

  /** An impolite step lets a second request in: from any covered state, after it, there are possible
      events at whose end two different requests are working. */
  lemma ImpoliteAdmitsTwo(s: State, e: Event) returns (more: seq<Event>, a: Task, b: Task)
    requires Covered(s) && Enabled(s, e) && !Polite(s, e)
    ensures BothWork(Next(s, e), more, a, b)
  {
    hide Holders;
    var t := Next(s, e);
    Alone(s);
    StepAccounts(s, e);
    a :| a in Working(s);
    var q: nat := if e.Replace? then var r :| r in s.claims && s.claims[r].session == e.session; r else e.request;
    var r :| StartedBy(s, r, a);
    assert r == q;
    match e
    case Start(_, y) => more, b := [], y;
    case Raise(_) => more, b := AdmitBeside(t, [], a);
    case Replace(_, y) =>
      more := ReturnsElsewhere(t, r, y, a);
      more, b := AdmitBeside(t, more, a);
  }

  /** A working request that no callback will release and no handler inside has scheduled. */
  ghost predicate Unaccounted(s: State, x: Task) {
    x in Working(s) && x !in s.accepted && x !in s.pending && forall r :: !StartedBy(s, r, x)
  }

  /** And from the impolite step on nothing accounts for the request that was working before it. */
  lemma ImpoliteUncovers(s: State, e: Event) returns (x: Task)
    requires Covered(s) && Enabled(s, e) && !Polite(s, e)
    ensures Working(s) == {x} && Unaccounted(Next(s, e), x)
  {
    hide Holders;
    var t := Next(s, e);
    Alone(s);
    x :| x in Working(s);
    var q: nat := if e.Replace? then var r :| r in s.claims && s.claims[r].session == e.session; r else e.request;
    assert q in s.claims && x !in s.accepted;
    var r :| StartedBy(s, r, x);
    assert r == q;
    assert x in Working(t) && x !in t.accepted;
    assert forall p :: !StartedBy(t, p, x);
  }

  lemma {:induction false} RunCovers(events: seq<Event>)
    requires Runs.IsRun(START, PoliteStep, Next, events)
    ensures Covered(After(events))
  {
    if |events| == 0 {
    } else {
      Runs.Last(START, PoliteStep, Next, events);
      RunCovers(events[..|events| - 1]);
      StepCovers(After(events[..|events| - 1]), events[|events| - 1]);
    }
  }

  /** At most one user request is in flight anywhere, and only while the slot is reserved. */
  lemma SingleRequest(events: seq<Event>, t: Task, u: Task)
    requires Runs.IsRun(START, PoliteStep, Next, events)
    requires t in Working(After(events)) && u in Working(After(events))
    ensures t == u && After(events).reserved
  {
    RunCovers(events);
    Alone(After(events));
  }

  /** A request is admitted only when no other one is being handled, working or about to be released. */
  lemma AdmittedAlone(events: seq<Event>, i: nat)
    requires Runs.IsRun(START, PoliteStep, Next, events) && i < |events| && events[i].Admit?
    ensures var s := After(events[..i]); Working(s) == {} && s.claims == map[] && s.pending == {}
  {
    Runs.Prefix(START, PoliteStep, Next, events, i);
    RunCovers(events[..i]);
    Alone(After(events[..i]));
  }

  /** A decided request that is not inside a handler. */
  predicate Outside(s: State, r: nat) {
    r in s.seen && r !in s.claims
  }

  /** A rejection touches no task, claim, callback or session. */
  lemma RejectTouchesNothing(events: seq<Event>, i: nat)
    requires IsRun(events) && i < |events| && events[i].Reject?
    ensures After(events[..i + 1]) == After(events[..i]).(seen := After(events[..i]).seen + {events[i].request})
  {
    Runs.Prefix(START, Enabled, Next, events, i);
  }

  lemma StaysOutside(s: State, e: Event, r: nat)
    requires Enabled(s, e)
    ensures Outside(s, r) ==> Outside(Next(s, e), r) && !(e.Start? && e.request == r)
    ensures e.Reject? && e.request == r && s.claims.Keys <= s.seen ==> Outside(Next(s, e), r)
  {
  }

  /** A rejected request replaces no session's current task, and it never starts work, whatever happens
      later. */
  lemma {:induction false} RejectedStartsNothing(events: seq<Event>, i: nat, k: nat)
    requires IsRun(events) && i < k <= |events| && events[i].Reject?
    ensures After(events[..i + 1]).current == After(events[..i]).current
    ensures Outside(After(events[..k]), events[i].request)
    ensures k < |events| ==> !(events[k].Start? && events[k].request == events[i].request)
  {
    hide Outside, Enabled, Next, Runs.After, Runs.IsRun;
    RejectTouchesNothing(events, i);
    Runs.Prefix(START, Enabled, Next, events, k - 1);
    Runs.Prefix(START, Enabled, Next, events, k);
    StaysOutside(After(events[..k - 1]), events[k - 1], events[i].request);
    if i + 1 < k {
      RejectedStartsNothing(events, i, k - 1);
    } else {
      HeldOnce(events[..i]);
    }
    if k < |events| {
      StaysOutside(After(events[..k]), events[k], events[i].request);
    }
  }

  const ADMITTED := State(true, {0}, map[0 := Claim(0, None)], map[], {}, {}, {}, {}, {})
  const STARTED := ADMITTED.(current := map[0 := 0], known := {0}, unfinished := {0}, requests := {0})
  const RAISED := STARTED.(claims := map[], reserved := false)
  const AGAIN := RAISED.(reserved := true, seen := {0, 1}, claims := map[1 := Claim(1, None)])

  lemma RaisingSteps()
    ensures Enabled(START, Admit(0, 0)) && Next(START, Admit(0, 0)) == ADMITTED
    ensures Enabled(ADMITTED, Start(0, 0)) && Next(ADMITTED, Start(0, 0)) == STARTED
    ensures Enabled(STARTED, Raise(0)) && Next(STARTED, Raise(0)) == RAISED
    ensures Enabled(RAISED, Admit(1, 1)) && Next(RAISED, Admit(1, 1)) == AGAIN
    ensures Enabled(AGAIN, Start(1, 1)) && Working(Next(AGAIN, Start(1, 1))) == {0, 1}
  {
  }

  /** The reliance is needed: a handler that raises after scheduling its task frees the slot while the
      task runs on, and a second request is admitted beside it. */
  lemma RaisingAfterStart()
    ensures exists events: seq<Event> :: IsRun(events) && Working(After(events)) == {0, 1}
  {
    hide Next, Enabled, Working;
    RaisingSteps();
    Runs.Extend(START, Enabled, Next, [], Admit(0, 0));
    Runs.Extend(START, Enabled, Next, [] + [Admit(0, 0)], Start(0, 0));
    Runs.Extend(START, Enabled, Next, [] + [Admit(0, 0)] + [Start(0, 0)], Raise(0));
    Runs.Extend(START, Enabled, Next, [] + [Admit(0, 0)] + [Start(0, 0)] + [Raise(0)], Admit(1, 1));
    var events := [] + [Admit(0, 0)] + [Start(0, 0)] + [Raise(0)] + [Admit(1, 1)];
    Runs.Extend(START, Enabled, Next, events, Start(1, 1));
    assert IsRun(events + [Start(1, 1)]);
  }
}
