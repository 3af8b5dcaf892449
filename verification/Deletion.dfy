/** Turns against deletion (runtime.py, app.py): messages, edits and direct runtime calls of any number
    of chats interleave at every await with cleanups. Cleanups are excluded from turns of their chat
    by three kinds of locks and two sets of chats being deleted. */
module Deletion {
  import opened Wrappers
  import Runs

  type Chat = nat
  type Task = nat

  datatype Store = Contexts | Files | Turns

  /** `Direct` tasks call the runtime without going through the application. */
  datatype Kind = Message | Edit | Direct | Cleanup

  datatype Phase =
    | Arrived
    | WaitingApp      // for the application's lock of the chat
    | Admitted        // holds it, has not checked the deletion set yet
    | Preparing       // has checked; attachments are uploaded here
    | Entered         // passed _enter_chat, waiting for the runtime's lock of the chat
    | WaitingTurn     // holds it, waiting for the global turn lock
    | Unchecked       // holds all locks, has not checked the runtime's deletion set yet
    | Running
    | Erasing(done: nat)
    | Gone

  datatype Actor = Actor(kind: Kind, chat: Chat, phase: Phase)

  datatype State = State(
    tasks: map<Task, Actor>, appLocks: map<Chat, Task>, chatLocks: map<Chat, Task>, turnLock: Option<Task>,
    deletingApp: set<Chat>, deletingRuntime: set<Chat>, data: set<(Chat, Store)>, cleaned: set<Chat>)

  datatype Event =
    | Arrive(task: Task, kind: Kind, chat: Chat)
    | Admit(task: Task)          // wait for the application's lock, unless the chat is being deleted
    | TakeApp(task: Task)
    | Check(task: Task)
    | Upload(task: Task)
    | Enter(task: Task)
    | TakeChat(task: Task)
    | TakeTurn(task: Task)
    | Recheck(task: Task)
    | Write(task: Task, store: Store)
    | Erase(task: Task)
    | Finish(task: Task)         // a cleanup that has erased everything
    | Leave(task: Task)          // return, failure or cancellation: every lock held is released

  const START := State(map[], map[], map[], None, {}, {}, {}, {})

  /** The order in which a cleanup erases the stores. */
  const ORDER: seq<Store> := [Contexts, Files, Turns]

  predicate HoldsApp(a: Actor) {
    !a.kind.Direct? && !a.phase.Arrived? && !a.phase.WaitingApp? && !a.phase.Gone?
  }

  predicate HoldsChat(a: Actor) {
    a.phase.WaitingTurn? || a.phase.Unchecked? || a.phase.Running? || a.phase.Erasing?
  }

  predicate HoldsTurn(a: Actor) {
    a.phase.Unchecked? || a.phase.Running?
  }

  predicate In(s: State, t: Task, phase: Phase) {
    t in s.tasks && s.tasks[t].phase == phase
  }

  predicate Enabled(s: State, e: Event) {
    match e
    case Arrive(t, _, _) => t !in s.tasks
    case Admit(t) => In(s, t, Arrived) && !s.tasks[t].kind.Direct?
    case TakeApp(t) => In(s, t, WaitingApp) && s.tasks[t].chat !in s.appLocks
    case Check(t) => In(s, t, Admitted)
    case Upload(t) => In(s, t, Preparing) && !s.tasks[t].kind.Cleanup?
    case Enter(t) =>
      && t in s.tasks
      && (if s.tasks[t].kind.Direct? then s.tasks[t].phase.Arrived? else s.tasks[t].phase.Preparing?)
    case TakeChat(t) => In(s, t, Entered) && s.tasks[t].chat !in s.chatLocks
    case TakeTurn(t) => In(s, t, WaitingTurn) && s.turnLock.None?
    case Recheck(t) => In(s, t, Unchecked)
    case Write(t, _) => In(s, t, Running)
    case Erase(t) => t in s.tasks && s.tasks[t].phase.Erasing? && s.tasks[t].phase.done < |ORDER|
    case Finish(t) => In(s, t, Erasing(|ORDER|))
    case Leave(t) => t in s.tasks && !s.tasks[t].phase.Gone?
  }

  function Moved(s: State, t: Task, phase: Phase): State
    requires t in s.tasks
  {
    s.(tasks := s.tasks[t := s.tasks[t].(phase := phase)])
  }

  function Left(s: State, t: Task): State
    requires t in s.tasks
  {
    var a := s.tasks[t];
    Moved(s, t, Gone).(
      appLocks := if HoldsApp(a) then s.appLocks - {a.chat} else s.appLocks,
      chatLocks := if HoldsChat(a) then s.chatLocks - {a.chat} else s.chatLocks,
      turnLock := if HoldsTurn(a) then None else s.turnLock)
  }

  /** _enter_chat refuses a chat being deleted and does not queue behind a running turn. */
  predicate Refused(s: State, c: Chat) {
    c in s.deletingRuntime || s.turnLock.Some? || c in s.chatLocks
  }

  function Next(s: State, e: Event): State {
    if !Enabled(s, e) then s
    else
      match e
      case Arrive(t, kind, c) =>
        var arrived := s.(tasks := s.tasks[t := Actor(kind, c, Arrived)]);
        if kind.Cleanup? then arrived.(deletingApp := s.deletingApp + {c}) else arrived
      case Admit(t) =>
        if s.tasks[t].kind.Message? && s.tasks[t].chat in s.deletingApp then Left(s, t) else Moved(s, t, WaitingApp)
      case TakeApp(t) => Moved(s, t, Admitted).(appLocks := s.appLocks[s.tasks[t].chat := t])
      case Check(t) =>
        if s.tasks[t].kind.Cleanup? then Moved(s, t, Preparing)
        else if s.tasks[t].chat in s.deletingApp then Left(s, t)
        else Moved(s, t, Preparing)
      case Upload(t) => s.(data := s.data + {(s.tasks[t].chat, Files)})
      case Enter(t) =>
        if s.tasks[t].kind.Cleanup? then Moved(s, t, Entered).(deletingRuntime := s.deletingRuntime + {s.tasks[t].chat})
        else if Refused(s, s.tasks[t].chat) then Left(s, t)
        else Moved(s, t, Entered)
      case TakeChat(t) =>
        Moved(s, t, if s.tasks[t].kind.Cleanup? then Erasing(0) else WaitingTurn)
        .(chatLocks := s.chatLocks[s.tasks[t].chat := t])
      case TakeTurn(t) => Moved(s, t, Unchecked).(turnLock := Some(t))
      case Recheck(t) => if s.tasks[t].chat in s.deletingRuntime then Left(s, t) else Moved(s, t, Running)
      case Write(t, store) => s.(data := s.data + {(s.tasks[t].chat, store)})
      case Erase(t) =>
        var a := s.tasks[t];
        Moved(s, t, Erasing(a.phase.done + 1)).(data := s.data - {(a.chat, ORDER[a.phase.done])})
      case Finish(t) => Left(s, t).(cleaned := s.cleaned + {s.tasks[t].chat})
      case Leave(t) => Left(s, t)
  }

  function After(events: seq<Event>): State {
    Runs.After(START, Next, events)
  }

  ghost predicate IsRun(events: seq<Event>) {
    Runs.IsRun(START, Enabled, Next, events)
  }

  // ---- Locks ---------------------------------------------------------------------------------

  /** Every task in a phase of holding a lock is its holder. */
  ghost predicate AppOk(s: State) {
    forall t :: t in s.tasks && HoldsApp(s.tasks[t]) ==>
      s.tasks[t].chat in s.appLocks && s.appLocks[s.tasks[t].chat] == t
  }

  ghost predicate ChatOk(s: State) {
    forall t :: t in s.tasks && HoldsChat(s.tasks[t]) ==>
      s.tasks[t].chat in s.chatLocks && s.chatLocks[s.tasks[t].chat] == t
  }

  ghost predicate TurnOk(s: State) {
    forall t :: t in s.tasks && HoldsTurn(s.tasks[t]) ==> s.turnLock == Some(t)
  }

  /** And a lock is taken only while such a task is there: nothing that left holds one. */
  ghost predicate AppHeld(s: State) {
    forall c :: c in s.appLocks ==>
      s.appLocks[c] in s.tasks && s.tasks[s.appLocks[c]].chat == c && HoldsApp(s.tasks[s.appLocks[c]])
  }

  ghost predicate ChatHeld(s: State) {
    forall c :: c in s.chatLocks ==>
      s.chatLocks[c] in s.tasks && s.tasks[s.chatLocks[c]].chat == c && HoldsChat(s.tasks[s.chatLocks[c]])
  }

  ghost predicate TurnHeld(s: State) {
    s.turnLock.Some? ==> s.turnLock.value in s.tasks && HoldsTurn(s.tasks[s.turnLock.value])
  }

  /** The phases that each kind of task can be in, and the sets a cleanup has entered its chat into. */
  predicate KindOk(s: State, a: Actor) {
    && (a.phase.Erasing? ==> a.kind.Cleanup? && a.phase.done <= |ORDER|)
    && (a.kind.Direct? ==> !a.phase.WaitingApp? && !a.phase.Admitted? && !a.phase.Preparing?)
    && (a.kind.Cleanup? ==> a.chat in s.deletingApp && !a.phase.WaitingTurn? && !HoldsTurn(a))
    && (a.kind.Cleanup? && (a.phase.Entered? || a.phase.Erasing?) ==> a.chat in s.deletingRuntime)
  }

  ghost predicate KindsOk(s: State) {
    forall t :: t in s.tasks ==> KindOk(s, s.tasks[t])
  }

  /** What a cleanup has erased stays erased while it goes on. */
  ghost predicate ErasedOk(s: State) {
    forall t, k :: t in s.tasks && s.tasks[t].phase.Erasing? && 0 <= k < s.tasks[t].phase.done && k < |ORDER| ==>
      (s.tasks[t].chat, ORDER[k]) !in s.data
  }

  /** May this task still write data of its chat? */
  predicate Writing(a: Actor) {
    (a.phase.Preparing? && !a.kind.Cleanup?) || a.phase.Running?
  }

  predicate Past(a: Actor) {
    !a.kind.Cleanup? && !a.kind.Direct? && HoldsApp(a) && !a.phase.Admitted?
  }

  /** The chat holds nothing and no task can write to it again. */
  ghost predicate Final(s: State, c: Chat) {
    && c in s.deletingApp && c in s.deletingRuntime
    && (forall store :: (c, store) !in s.data)
    && (forall t :: t in s.tasks && s.tasks[t].chat == c ==> !Past(s.tasks[t]) && !s.tasks[t].phase.Running?)
  }

  ghost predicate CleanedOk(s: State) {
    forall c :: c in s.cleaned ==> Final(s, c)
  }

  ghost predicate Safe(s: State) {
    && AppOk(s) && ChatOk(s) && TurnOk(s) && AppHeld(s) && ChatHeld(s) && TurnHeld(s)
    && KindsOk(s) && ErasedOk(s) && CleanedOk(s)
  }

  // ---- Steps -----------------------------------------------------------------------------------

  /** An event concerns one task. */
  lemma OthersStay(s: State, e: Event)
    requires Enabled(s, e)
    ensures e.task in Next(s, e).tasks
    ensures forall t :: t != e.task ==> (t in Next(s, e).tasks <==> t in s.tasks)
    ensures forall t :: t != e.task && t in s.tasks ==> Next(s, e).tasks[t] == s.tasks[t]
    ensures s.deletingApp <= Next(s, e).deletingApp && s.deletingRuntime <= Next(s, e).deletingRuntime
  {
  }

  lemma AppStep(s: State, e: Event)
    requires AppOk(s) && Enabled(s, e)
    ensures AppOk(Next(s, e))
  {
    OthersStay(s, e);
    var t := Next(s, e);
    var c := t.tasks[e.task].chat;
    assert forall d :: d != c ==>
             (d in t.appLocks <==> d in s.appLocks) && (d in s.appLocks ==> t.appLocks[d] == s.appLocks[d]);
  }

  lemma ChatStep(s: State, e: Event)
    requires ChatOk(s) && KindsOk(s) && Enabled(s, e)
    ensures ChatOk(Next(s, e))
  {
    OthersStay(s, e);
    var t := Next(s, e);
    var c := t.tasks[e.task].chat;
    assert forall d :: d != c ==>
             (d in t.chatLocks <==> d in s.chatLocks) && (d in s.chatLocks ==> t.chatLocks[d] == s.chatLocks[d]);
  }

  lemma TurnStep(s: State, e: Event)
    requires TurnOk(s) && Enabled(s, e)
    ensures TurnOk(Next(s, e))
  {
    OthersStay(s, e);
  }

  lemma AppHeldStep(s: State, e: Event)
    requires AppOk(s) && AppHeld(s) && KindsOk(s) && Enabled(s, e)
    ensures AppHeld(Next(s, e))
  {
    OthersStay(s, e);
  }

  lemma ChatHeldStep(s: State, e: Event)
    requires ChatOk(s) && ChatHeld(s) && Enabled(s, e)
    ensures ChatHeld(Next(s, e))
  {
    OthersStay(s, e);
  }

  lemma TurnHeldStep(s: State, e: Event)
    requires TurnOk(s) && TurnHeld(s) && Enabled(s, e)
    ensures TurnHeld(Next(s, e))
  {
    OthersStay(s, e);
  }

  lemma KindStep(s: State, e: Event)
    requires KindsOk(s) && Enabled(s, e)
    ensures KindsOk(Next(s, e))
  {
    OthersStay(s, e);
    assert KindOk(Next(s, e), Next(s, e).tasks[e.task]);
  }

  /** Only a task that may write adds data, and only to its own chat. */
  lemma DataStep(s: State, e: Event)
    requires Enabled(s, e) && KindsOk(s)
    ensures forall c, store :: (c, store) in Next(s, e).data - s.data ==>
              Writing(s.tasks[e.task]) && c == s.tasks[e.task].chat
    ensures e.Erase? ==> (s.tasks[e.task].chat, ORDER[s.tasks[e.task].phase.done]) !in Next(s, e).data
    ensures Next(s, e).tasks[e.task].phase.Erasing? ==>
              Next(s, e).tasks[e.task].phase.done == 0
              || (e.Erase? && Next(s, e).tasks[e.task].phase.done == s.tasks[e.task].phase.done + 1)
  {
  }

  /** Data disappears only where a cleanup erases its own chat. */
  lemma OnlyCleanupsErase(s: State, e: Event)
    requires Enabled(s, e) && KindsOk(s)
    ensures forall c, store :: (c, store) in s.data - Next(s, e).data ==>
              s.tasks[e.task].kind.Cleanup? && s.tasks[e.task].phase.Erasing? && c == s.tasks[e.task].chat
  {
  }

  /** A task that may write excludes a cleanup that erases its chat. */
  lemma WriterExcludes(s: State, t: Task, d: Task)
    requires AppOk(s) && ChatOk(s) && KindsOk(s) && t in s.tasks && d in s.tasks
    requires Writing(s.tasks[t]) && s.tasks[d].phase.Erasing?
    ensures s.tasks[t].chat != s.tasks[d].chat
  {
    assert KindOk(s, s.tasks[t]) && KindOk(s, s.tasks[d]);
  }

  lemma ErasedStep(s: State, e: Event)
    requires AppOk(s) && ChatOk(s) && KindsOk(s) && ErasedOk(s) && Enabled(s, e)
    ensures ErasedOk(Next(s, e))
  {
    var n := Next(s, e);
    OthersStay(s, e);
    DataStep(s, e);
    forall t, k | t in n.tasks && n.tasks[t].phase.Erasing? && 0 <= k < n.tasks[t].phase.done && k < |ORDER|
      ensures (n.tasks[t].chat, ORDER[k]) !in n.data
    {
      if t in s.tasks && s.tasks[t].phase.Erasing? && e.task in s.tasks && Writing(s.tasks[e.task]) {
        WriterExcludes(s, e.task, t);
      }
    }
  }

  lemma CleanedStep(s: State, e: Event)
    requires Safe(s) && Enabled(s, e)
    ensures CleanedOk(Next(s, e))
  {
    var n := Next(s, e);
    OthersStay(s, e);
    DataStep(s, e);
    forall c | c in n.cleaned ensures Final(n, c) {
      if c in s.cleaned {
        StaysFinal(s, e, c);
      } else {
        BecomesFinal(s, e);
      }
    }
  }

  lemma StaysFinal(s: State, e: Event, c: Chat)
    requires KindsOk(s) && Final(s, c) && Enabled(s, e)
    ensures Final(Next(s, e), c)
  {
    OthersStay(s, e);
    DataStep(s, e);
    var a := Next(s, e).tasks[e.task];
    if e.task in s.tasks && s.tasks[e.task].chat == c {
      assert KindOk(s, s.tasks[e.task]);
      assert !Writing(s.tasks[e.task]);
    }
    assert a.chat == c ==> !Past(a) && !a.phase.Running?;
  }

  lemma BecomesFinal(s: State, e: Event)
    requires Safe(s) && Enabled(s, e) && e.Finish?
    ensures Final(Next(s, e), s.tasks[e.task].chat)
  {
    OthersStay(s, e);
    var c := s.tasks[e.task].chat;
    assert KindOk(s, s.tasks[e.task]);
    forall store ensures (c, store) !in Next(s, e).data {
      assert store == ORDER[0] || store == ORDER[1] || store == ORDER[2];
    }
    forall t | t in s.tasks && t != e.task && s.tasks[t].chat == c
      ensures !Past(s.tasks[t]) && !s.tasks[t].phase.Running?
    {
    }
  }

  lemma {:induction false} RunIsSafe(events: seq<Event>)
    requires IsRun(events)
    ensures Safe(After(events))
  {
    hide AppOk, ChatOk, TurnOk, AppHeld, ChatHeld, TurnHeld, KindsOk, ErasedOk, CleanedOk, Enabled, Next;
    if |events| > 0 {
      var n := |events| - 1;
      var s, e := After(events[..n]), events[n];
      Runs.Last(START, Enabled, Next, events);
      RunIsSafe(events[..n]);
      AppStep(s, e);
      ChatStep(s, e);
      TurnStep(s, e);
      AppHeldStep(s, e);
      ChatHeldStep(s, e);
      TurnHeldStep(s, e);
      KindStep(s, e);
      ErasedStep(s, e);
      CleanedStep(s, e);
    } else {
      StartIsSafe();
    }
  }

  lemma StartIsSafe()
    ensures Safe(START)
  {
  }

  // ---- Nothing is refused without need ---------------------------------------------------------------

  /** Nobody is in the way of a turn of this chat. */
  predicate Free(s: State, c: Chat) {
    && c !in s.deletingApp && c !in s.deletingRuntime && c !in s.appLocks && c !in s.chatLocks && s.turnLock.None?
  }

  /** The way of a turn that nobody disturbs, from its arrival to its run. */
  function Undisturbed(t: Task, kind: Kind, c: Chat): seq<Event> {
    [Arrive(t, kind, c)] + (if kind.Direct? then [] else [Admit(t), TakeApp(t), Check(t)])
    + [Enter(t), TakeChat(t), TakeTurn(t), Recheck(t)]
  }

  lemma Entering(s: State, t: Task, kind: Kind, c: Chat) returns (way: seq<Event>)
    requires Free(s, c) && t !in s.tasks && !kind.Cleanup?
    ensures way == [Arrive(t, kind, c)] + if kind.Direct? then [] else [Admit(t), TakeApp(t), Check(t)]
    ensures Runs.IsRun(s, Enabled, Next, way)
    ensures var u := Runs.After(s, Next, way);
            && t in u.tasks && u.tasks[t] == Actor(kind, c, if kind.Direct? then Arrived else Preparing)
            && c !in u.deletingRuntime && c !in u.chatLocks && u.turnLock.None? && u.data == s.data
  {
    hide Runs.IsRun, Runs.After;
    way := [];
    Runs.Empty(s, Enabled, Next);
    Runs.Extend(s, Enabled, Next, [], Arrive(t, kind, c));
    way := way + [Arrive(t, kind, c)];
    if !kind.Direct? {
      Runs.Extend(s, Enabled, Next, way, Admit(t));
      Runs.Extend(s, Enabled, Next, way + [Admit(t)], TakeApp(t));
      Runs.Extend(s, Enabled, Next, way + [Admit(t)] + [TakeApp(t)], Check(t));
      way := way + [Admit(t)] + [TakeApp(t)] + [Check(t)];
    }
  }

  /** On a free system a message, an edit and a direct call all get to run, and what they write is there. */
  lemma TurnRuns(s: State, t: Task, kind: Kind, c: Chat, store: Store)
    requires Free(s, c) && t !in s.tasks && !kind.Cleanup?
    ensures Runs.IsRun(s, Enabled, Next, Undisturbed(t, kind, c))
    ensures var u := Runs.After(s, Next, Undisturbed(t, kind, c));
            && t in u.tasks && u.tasks[t] == Actor(kind, c, Running)
            && Enabled(u, Write(t, store)) && Next(u, Write(t, store)).data == s.data + {(c, store)}
  {
    hide Runs.IsRun, Runs.After;
    var way := Entering(s, t, kind, c);
    Waiting(s, t, kind, c, way);
    Runs.Extend(s, Enabled, Next, way + [Enter(t)] + [TakeChat(t)], TakeTurn(t));
    Runs.Extend(s, Enabled, Next, way + [Enter(t)] + [TakeChat(t)] + [TakeTurn(t)], Recheck(t));
    assert way + [Enter(t)] + [TakeChat(t)] + [TakeTurn(t)] + [Recheck(t)] == Undisturbed(t, kind, c);
  }

  lemma Waiting(s: State, t: Task, kind: Kind, c: Chat, way: seq<Event>)
    requires Runs.IsRun(s, Enabled, Next, way) && !kind.Cleanup?
    requires var u := Runs.After(s, Next, way);
             && t in u.tasks && u.tasks[t] == Actor(kind, c, if kind.Direct? then Arrived else Preparing)
             && c !in u.deletingRuntime && c !in u.chatLocks && u.turnLock.None? && u.data == s.data
    ensures var longer := way + [Enter(t)] + [TakeChat(t)];
            var u := Runs.After(s, Next, longer);
            && Runs.IsRun(s, Enabled, Next, longer) && t in u.tasks && u.tasks[t] == Actor(kind, c, WaitingTurn)
            && c !in u.deletingRuntime && u.turnLock.None? && u.data == s.data
  {
    hide Runs.IsRun, Runs.After;
    Runs.Extend(s, Enabled, Next, way, Enter(t));
    Runs.Extend(s, Enabled, Next, way + [Enter(t)], TakeChat(t));
  }

  /** A turn is refused at the runtime exactly if its chat is being deleted or a turn is under way. */
  lemma RefusedIff(s: State, t: Task)
    requires Enabled(s, Enter(t)) && !s.tasks[t].kind.Cleanup?
    ensures In(Next(s, Enter(t)), t, Gone)
            <==> s.tasks[t].chat in s.deletingRuntime || s.turnLock != None || s.tasks[t].chat in s.chatLocks
    ensures !In(Next(s, Enter(t)), t, Gone) ==> In(Next(s, Enter(t)), t, Entered)
  {
  }

  /** A cleanup that nobody disturbs erases the whole chat and nothing else. */
  lemma CleanupRuns(s: State, t: Task, c: Chat) returns (way: seq<Event>)
    requires t !in s.tasks && c !in s.appLocks && c !in s.chatLocks
    ensures Runs.IsRun(s, Enabled, Next, way)
    ensures var u := Runs.After(s, Next, way);
            && c in u.cleaned && In(u, t, Gone)
            && forall d, store :: (d, store) in u.data <==> d != c && (d, store) in s.data
  {
    hide Runs.IsRun, Runs.After;
    way := ReachErasing(s, t, c);
    Runs.Extend(s, Enabled, Next, way, Erase(t));
    Runs.Extend(s, Enabled, Next, way + [Erase(t)], Erase(t));
    Runs.Extend(s, Enabled, Next, way + [Erase(t)] + [Erase(t)], Erase(t));
    Runs.Extend(s, Enabled, Next, way + [Erase(t)] + [Erase(t)] + [Erase(t)], Finish(t));
    way := way + [Erase(t)] + [Erase(t)] + [Erase(t)] + [Finish(t)];
    forall d, store ensures (d, store) in Runs.After(s, Next, way).data <==> d != c && (d, store) in s.data {
      assert store == ORDER[0] || store == ORDER[1] || store == ORDER[2];
    }
  }

  lemma ReachErasing(s: State, t: Task, c: Chat) returns (way: seq<Event>)
    requires t !in s.tasks && c !in s.appLocks && c !in s.chatLocks
    ensures Runs.IsRun(s, Enabled, Next, way)
    ensures var u := Runs.After(s, Next, way);
            t in u.tasks && u.tasks[t] == Actor(Cleanup, c, Erasing(0)) && u.data == s.data
  {
    hide Runs.IsRun, Runs.After;
    Runs.Empty(s, Enabled, Next);
    Runs.Extend(s, Enabled, Next, [], Arrive(t, Cleanup, c));
    way := [] + [Arrive(t, Cleanup, c)];
    Runs.Extend(s, Enabled, Next, way, Admit(t));
    Runs.Extend(s, Enabled, Next, way + [Admit(t)], TakeApp(t));
    way := way + [Admit(t)] + [TakeApp(t)];
    Runs.Extend(s, Enabled, Next, way, Check(t));
    Runs.Extend(s, Enabled, Next, way + [Check(t)], Enter(t));
    Runs.Extend(s, Enabled, Next, way + [Check(t)] + [Enter(t)], TakeChat(t));
    way := way + [Check(t)] + [Enter(t)] + [TakeChat(t)];
  }

  /** When every task has left, no lock is taken, and a chat that nobody deletes is free for a turn. */
  lemma NothingIsLeaked(events: seq<Event>, c: Chat)
    requires IsRun(events) && forall t :: t in After(events).tasks ==> In(After(events), t, Gone)
    ensures After(events).appLocks == map[] && After(events).chatLocks == map[] && After(events).turnLock == None
    ensures c !in After(events).deletingApp + After(events).deletingRuntime ==> Free(After(events), c)
  {
    RunIsSafe(events);
    var s := After(events);
    assert forall d :: d in s.appLocks ==> In(s, s.appLocks[d], Gone);
    assert forall d :: d in s.chatLocks ==> In(s, s.chatLocks[d], Gone);
  }

  // ---- Deletion is final -------------------------------------------------------------------------

  /** At most one turn runs, over all chats. */
  lemma OneTurn(events: seq<Event>, t: Task, u: Task)
    requires IsRun(events) && In(After(events), t, Running) && In(After(events), u, Running)
    ensures t == u
  {
    RunIsSafe(events);
  }

  /** While a cleanup erases a chat, no other task can write to it. */
  lemma NeverOverlaps(events: seq<Event>, d: Task, t: Task)
    requires IsRun(events) && d in After(events).tasks && t in After(events).tasks
    requires After(events).tasks[d].phase.Erasing? && Writing(After(events).tasks[t])
    ensures After(events).tasks[d].chat != After(events).tasks[t].chat
  {
    RunIsSafe(events);
    WriterExcludes(After(events), t, d);
  }

  lemma CleanedForever(s: State, e: Event, c: Chat)
    requires c in s.cleaned && Enabled(s, e)
    ensures c in Next(s, e).cleaned
  {
  }

  /** Once a cleanup of a chat has completed, nothing that was under way, waiting or comes later can
      leave any data of that chat behind. */
  lemma {:induction false} DeletionIsFinal(events: seq<Event>, i: nat, c: Chat)
    requires IsRun(events) && i <= |events| && c in After(events[..i]).cleaned
    ensures c in After(events).cleaned && forall store :: (c, store) !in After(events).data
  {
    hide Enabled, Next, AppOk, ChatOk, TurnOk, KindsOk, ErasedOk;
    RunIsSafe(events);
    if i < |events| {
      var n := |events| - 1;
      Runs.Last(START, Enabled, Next, events);
      assert events[..n][..i] == events[..i];
      DeletionIsFinal(events[..n], i, c);
      CleanedForever(After(events[..n]), events[n], c);
    } else {
      assert events[..i] == events;
    }
  }
}
