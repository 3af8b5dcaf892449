/** The saga that keeps context, files and turns together (runtime.py). Every method keeps `Valid`:
    for every chat the stores agree with a fresh replay of its surviving turns. The ghost field
    `logs` names those turns. */
module Runtime {
  import opened Wrappers
  import opened Conversation
  import opened History
  import opened Replay
  import opened Agent
  import opened S = SandboxFiles

  /** Where an awaited step of `submit` fails or is cancelled. */
  datatype SubmitFault = SubmitFault(checkpoint: bool, files: Option<nat>, run: bool, append: bool)

  /** Where an awaited step of a revision fails or is cancelled. */
  datatype RevisionFault = RevisionFault(
    get: bool, checkpoint: bool, files: Option<nat>, history: bool,
    agentRestore: bool, filesRestore: Option<nat>, upload: Option<nat>, run: bool, replace: bool)

  const NO_REVISION_FAULT := RevisionFault(false, false, None, false, false, None, None, false, false)

  /** Identifiers drawn with uuid4, assumed unused, and the database clock. */
  datatype Ids = Ids(memory: string, files: string, now: nat)

  /** One run of `submit` once its rollback references exist. */
  datatype Attempt = Attempt(chat: string, turnId: string, text: string, choice: nat, memory: Token,
                             files: string, now: nat)

  /** The rerun of an edited turn: what it keeps of the original and what is new. */
  datatype Rerun = Rerun(original: Turn, text: string, uploads: seq<UploadRequest>, choice: nat, now: nat)

  /** A message attachment: its size, the bytes a copy would produce and its plain name. */
  datatype UploadRequest = UploadRequest(size: nat, copied: Option<Bytes>, name: string)

  /** Anything that can be asked of the runtime, with the identifiers drawn for it and where it fails. */
  datatype Request =
    | Attach(chat: string, upload: UploadRequest)
    | Say(chat: string, turnId: string, text: string, choice: nat, ids: Ids, fault: SubmitFault)
    | Edit(chat: string, turnId: string, text: string, uploads: seq<UploadRequest>, choice: nat, ids: Ids,
           faults: RevisionFault)
    | Remove(chat: string)

  function LogAt(logs: map<string, Log>, c: string): Log {
    if c in logs then logs[c] else EMPTY_LOG
  }

  /** The logs after a request came to this step: they change for its chat only. */
  function NextLogs(logs: map<string, Log>, request: Request, step: Step): map<string, Log> {
    match step
    case Nothing => logs
    case Deleted => logs - {request.chat}
    case _ => logs[request.chat := NextLog(LogAt(logs, request.chat), step)]
  }

  /** The logs after these requests came to these steps. */
  function LogsAfter(logs: map<string, Log>, requests: seq<Request>, steps: seq<Step>): map<string, Log>
    requires |requests| == |steps|
  {
    if |steps| == 0 then logs
    else
      var n := |steps| - 1;
      NextLogs(LogsAfter(logs, requests[..n], steps[..n]), requests[n], steps[n])
  }

  /** The requests that came to something. */
  function Survivors(requests: seq<Request>, steps: seq<Step>): seq<Request>
    requires |requests| == |steps|
  {
    if |steps| == 0 then []
    else
      var n := |steps| - 1;
      Survivors(requests[..n], steps[..n]) + if steps[n].Nothing? then [] else [requests[n]]
  }

  /** A turn of this id in any chat; identifiers are one primary key. */
  ghost predicate Known(logs: map<string, Log>, turnId: string) {
    exists c :: c in logs && TurnIn(logs[c].entries, turnId).Some?
  }

  /** The place of a turn among these. */
  function TurnIn(entries: seq<Entry>, turnId: string): (k: Option<nat>)
    ensures k.Some? ==> k.value < |entries| && entries[k.value].id == turnId
    ensures k.None? ==> forall j :: 0 <= j < |entries| ==> entries[j].id != turnId
  {
    if |entries| == 0 then None
    else if entries[|entries| - 1].id == turnId then Some(|entries| - 1)
    else TurnIn(entries[..|entries| - 1], turnId)
  }

  /** No awaited step of this request fails. */
  predicate Undisturbed(request: Request) {
    match request
    case Attach(_, _) => true
    case Say(_, _, _, _, _, fault) =>
      !fault.checkpoint && (fault.files.Some? ==> fault.files.value > 2) && !fault.run && !fault.append
    case Edit(_, _, _, _, _, _, faults) => faults == NO_REVISION_FAULT
    case Remove(_) => true
  }

  /** What a request with this effect may come to: its effect or nothing; the effect if nothing fails
      and its identifiers are new; nothing if a step of a new turn fails. */
  predicate ComesTo(request: Request, effect: Step, step: Step, drawn: bool) {
    && (step.Nothing? || step == effect)
    && (drawn && Undisturbed(request) ==> step == effect)
    && (request.Say? && !Undisturbed(request) ==> step.Nothing?)
  }

  /** The identifiers drawn for a request. */
  function MemoryIds(request: Request): set<string> {
    match request
    case Say(_, _, _, _, ids, _) => {ids.memory}
    case Edit(_, _, _, _, _, ids, _) => {ids.memory}
    case _ => {}
  }

  function FileIds(request: Request): set<string> {
    match request
    case Say(_, _, _, _, ids, _) => {ids.files}
    case Edit(_, _, _, _, _, ids, _) => {ids.files}
    case _ => {}
  }

  predicate Apart(a: Request, b: Request) {
    MemoryIds(a) !! MemoryIds(b) && FileIds(a) !! FileIds(b)
  }

  /** The changes that uploading these files one after another makes, if all of them fit. */
  ghost function Placed(sandbox: SandboxFiles, trees: Trees, uploads: seq<UploadRequest>)
    : (r: Option<seq<FileChange>>)
    ensures r.Some? ==> |r.value| == |uploads|
  {
    if |uploads| == 0 then Some([])
    else
      var n := |uploads| - 1;
      match Placed(sandbox, trees, uploads[..n])
      case None => None
      case Some(changes) =>
        var files := ApplyAll(trees, changes).files;
        var u := uploads[n];
        if u.size <= sandbox.maxFileBytes && sandbox.Fits(files, u.size, u.copied, u.name, false)
        then Some(changes + [Put(FreeName(files, u.name), u.copied.value)])
        else None
  }

  /** The row that takes the place of the edited turn: same id, same two references. */
  function Replacement(a: Rerun, answer: string): Turn {
    a.original.(text := a.text, answer := answer)
  }

  /** A completed turn of this chat. */
  predicate Editable(table: Table, c: string, turnId: string) {
    FindTurn(table, turnId).Some? && FindTurn(table, turnId).value.turn.chat == c
  }

  /** The place of a turn in its chat. */
  function EditedIndex(table: Table, turnId: string): int
    requires FindTurn(table, turnId).Some?
  {
    FindTurn(table, turnId).value.sequence - 1
  }

  /** What one revision keeps for its rollback, and how far it got. */
  class RevisionTransaction {
    const chat: string
    const original: Turn
    const memory: Token
    const files: string
    const continuation: HistorySnapshot
    var runStarted: bool
    var historyReplaced: bool

    // The state at the start, for the specification only.
    ghost const base: ChatState
    ghost const table: Table
    ghost const contexts: map<string, Context>
    ghost const live: map<string, Dirs>
    ghost const index: nat
    ghost var next: Log

    constructor (chat: string, original: Turn, memory: Token, files: string, continuation: HistorySnapshot,
                 ghost base: ChatState, ghost table: Table, ghost contexts: map<string, Context>,
                 ghost live: map<string, Dirs>, ghost index: nat)
      ensures this.chat == chat && this.original == original && this.memory == memory && this.files == files
      ensures this.continuation == continuation && !runStarted && !historyReplaced
      ensures this.base == base && this.table == table && this.contexts == contexts && this.live == live
      ensures this.index == index
    {
      this.chat, this.original, this.memory := chat, original, memory;
      this.files, this.continuation := files, continuation;
      this.base, this.table, this.contexts, this.live, this.index := base, table, contexts, live, index;
      runStarted, historyReplaced := false, false;
      next := EMPTY_LOG;
    }

    ghost function DirsBefore(d: string): Dirs {
      if d in live then live[d] else map[]
    }

    /** Chat d as it was when the transaction began, given the snapshot tables of now. */
    ghost function StateBefore(d: string, saved: map<string, Saved>, archives: map<string, Snapshot>): ChatState {
      ChatState(if d in contexts then Some(contexts[d]) else None, saved, TreesOf(DirsBefore(d)), archives,
                ChatRows(table, d))
    }

    /** What chat d showed when the transaction began. */
    ghost function ViewBefore(d: string): Visible {
      View(StateBefore(d, map[], map[]))
    }
  }

  /** What the stores hold of a chat. */
  ghost function StateIn(agent: AgentExecution, sandbox: SandboxFiles, history: SQLiteHistory, c: string): ChatState
    reads agent.memory, sandbox, history
  {
    ChatState(agent.memory.Load(c), agent.memory.saved, sandbox.TreesAt(c), sandbox.SnapshotsAt(c),
              ChatRows(history.table, c))
  }

  /** Empty stores agree with no logs. */
  lemma NothingStored(agent: AgentExecution, sandbox: SandboxFiles, history: SQLiteHistory)
    requires agent.memory.contexts == map[] && sandbox.live == map[] && history.table == []
    ensures forall c :: Coherent(agent.model, LogAt(map[], c), c, StateIn(agent, sandbox, history, c))
  {
    forall c ensures Coherent(agent.model, LogAt(map[], c), c, StateIn(agent, sandbox, history, c)) {
      NeverUsed(agent.model, c, StateIn(agent, sandbox, history, c));
    }
  }

  /** A chat as an older release left it, and a log that explains it: `files` are the trees before
      each turn and now. */
  ghost predicate LeftByOldRelease(c: string, st: ChatState, files: seq<Trees>, log: Log) {
    && |files| == |st.rows| + 1 && st.context.None? && st.trees == files[|st.rows|] && DistinctTokens(st.rows)
    && (forall j :: 0 <= j < |st.rows| ==> LegacyRow(c, st, files[j], j))
    && log == ImportedLog(st.rows, files)
  }

  /** The stores of an older release, whose legacy tokens are distinct in each chat, can be taken over. */
  lemma ReleaseTakenOver(agent: AgentExecution, sandbox: SandboxFiles, history: SQLiteHistory,
                         files: map<string, seq<Trees>>, logs: map<string, Log>)
    requires files.Keys == logs.Keys
    requires forall c :: c in logs ==> LeftByOldRelease(c, StateIn(agent, sandbox, history, c), files[c], logs[c])
    requires forall c :: c !in logs ==>
                           c !in agent.memory.contexts && c !in sandbox.live && ChatRows(history.table, c) == []
    ensures forall c :: Coherent(agent.model, LogAt(logs, c), c, StateIn(agent, sandbox, history, c))
  {
    hide Coherent, LegacyRow;
    forall c ensures Coherent(agent.model, LogAt(logs, c), c, StateIn(agent, sandbox, history, c)) {
      if c in logs {
        ImportedChatIsCoherent(agent.model, c, StateIn(agent, sandbox, history, c), files[c]);
      } else {
        NeverUsed(agent.model, c, StateIn(agent, sandbox, history, c));
      }
    }
  }

  lemma NeverUsed(model: Model, c: string, st: ChatState)
    requires st.context.None? && st.trees == NO_FILES && st.rows == []
    ensures Coherent(model, EMPTY_LOG, c, st)
  {
  }

  class ChatRuntime {
    const agent: AgentExecution
    const sandbox: SandboxFiles
    const history: SQLiteHistory
    ghost var logs: map<string, Log>

    /** Take over stores that agree with these logs: empty ones (`NothingStored`), those an earlier
        process left, or those of an older release (`ReleaseTakenOver`). */
    constructor (agent: AgentExecution, sandbox: SandboxFiles, history: SQLiteHistory, ghost logs: map<string, Log>)
      requires agent.history == history && history.Valid() && sandbox.Valid()
      requires forall c :: Coherent(agent.model, LogAt(logs, c), c, StateIn(agent, sandbox, history, c))
      ensures Valid() && this.logs == logs
      ensures this.agent == agent && this.sandbox == sandbox && this.history == history
    {
      this.agent, this.sandbox, this.history, this.logs := agent, sandbox, history, logs;
    }

    ghost function State(c: string): ChatState
      reads agent.memory, sandbox, history
    {
      StateIn(agent, sandbox, history, c)
    }

    ghost function ViewOf(c: string): Visible
      reads agent.memory, sandbox, history
    {
      View(State(c))
    }

    ghost function LogOf(c: string): Log
      reads this`logs
    {
      LogAt(logs, c)
    }

    /** Replay equivalence, for every chat at once. */
    ghost predicate Valid()
      reads this, agent.memory, sandbox, history
    {
      && agent.history == history && history.Valid() && sandbox.Valid()
      && Coherence()
    }

    /** The stores of each chat agree with the replay of its log. */
    ghost predicate Coherence()
      reads this, agent.memory, sandbox, history
    {
      forall c :: Coherent(agent.model, LogOf(c), c, State(c))
    }

    predicate FreshFor(c: string, ids: Ids)
      reads agent.memory, sandbox
    {
      ids.memory !in agent.memory.saved && IsSnapshotId(ids.files) && ids.files !in sandbox.SnapshotsAt(c)
    }

    /** No snapshot appears but under these identifiers. */
    twostate predicate Adds(new memory: set<string>, new files: set<string>)
      reads agent.memory, sandbox
    {
      && agent.memory.saved.Keys <= old(agent.memory.saved.Keys) + memory
      && forall d :: sandbox.SnapshotsAt(d).Keys <= old(sandbox.SnapshotsAt(d).Keys) + files
    }

    /** Unchanged views and grown snapshot tables keep every chat coherent with its unchanged log. */
    twostate lemma KeepAll()
      requires old(Valid()) && agent.history == history && history.Valid() && sandbox.Valid() && logs == old(logs)
      requires forall d :: ViewOf(d) == old(ViewOf(d))
      requires Grows(old(agent.memory.saved), agent.memory.saved)
      requires forall d :: Grows(old(sandbox.SnapshotsAt(d)), sandbox.SnapshotsAt(d))
      ensures Valid()
    {
      forall d ensures Coherent(agent.model, LogOf(d), d, State(d)) {
        assert ViewOf(d) == old(ViewOf(d));
        CoherentGrows(agent.model, LogOf(d), d, old(State(d)), State(d));
      }
    }

    /** Restore context and files; both are attempted, whether or not the other fails, and the first
        error is reported. */
    method RestoreState(c: string, memory: Token, files: string, contextFault: bool, filesFault: Option<nat>)
      returns (r: Result<()>)
      requires sandbox.Valid()
      modifies agent.memory`contexts, sandbox`live
      ensures sandbox.Valid()
      ensures var context := Resolve(agent.memory.saved, ChatRows(agent.history.table, c), c, memory);
              var possible := context.Ok? && !contextFault;
              && agent.memory.contexts == (if possible then old(agent.memory.contexts)[c := context.value]
                                           else old(agent.memory.contexts))
              && (r.Ok? ==> possible && sandbox.Restorable(c, files))
              && (possible && sandbox.Restorable(c, files) && filesFault.None? ==> r.Ok?)
      ensures r.Ok? || (sandbox.Restorable(c, files) && filesFault.None?) ==>
                sandbox.DirsAt(c) == DirsOf(Contents(sandbox.SnapshotsAt(c)[files]).value)
      ensures sandbox.DirsAt(c) == old(sandbox.DirsAt(c))
              || (sandbox.Restorable(c, files)
                  && sandbox.DirsAt(c) == DirsOf(Contents(sandbox.SnapshotsAt(c)[files]).value))
      ensures forall d :: d != c ==> sandbox.DirsAt(d) == old(sandbox.DirsAt(d))
    {
      var first := agent.Restore(c, memory, contextFault);
      var second := sandbox.RestoreSnapshot(c, files, filesFault);
      return if first.Err? then first else second;
    }

    /** One upload outside a transaction (a message's attachments, before `submit`). */
    method UploadFile(c: string, upload: UploadRequest) returns (r: Result<string>)
      requires Valid()
      modifies this`logs, sandbox`live
      ensures Valid()
      ensures var placed := Placed(sandbox, old(ViewOf(c)).trees, [upload]);
              && (r.Ok? <==> IsChatId(c) && placed.Some?)
              && (r.Ok? ==> && upload.copied.Some? && placed == Some([Put(r.value, upload.copied.value)])
                            && r.value !in old(ViewOf(c)).trees.files)
      ensures r.Err? ==> logs == old(logs)
      ensures r.Ok? ==> logs == old(logs)[c := Uploaded(old(LogOf(c)), Put(r.value, upload.copied.value))]
      ensures forall d :: (r.Err? || d != c) ==> ViewOf(d) == old(ViewOf(d))
    {
      ghost var trees := sandbox.TreesAt(c);
      OneUpload(sandbox, trees, upload);
      r := sandbox.Upload(c, upload.size, upload.copied, upload.name, false);
      if r.Ok? {
        CoherentAfterUpload(agent.model, LogOf(c), c, old(State(c)), Put(r.value, upload.copied.value));
        logs := logs[c := Uploaded(LogOf(c), Put(r.value, upload.copied.value))];
      }
      forall d ensures Coherent(agent.model, LogOf(d), d, State(d)) {
        assert old(Coherent(agent.model, LogOf(d), d, State(d)));
        if d == c && r.Ok? {
          assert State(c) == old(State(c)).(trees := sandbox.TreesAt(c));
        } else {
          assert State(d).trees == old(State(d)).trees;
          assert State(d) == old(State(d));
        }
      }
    }

    /** The rollback references: a context snapshot and a file snapshot of the present state. */
    ghost predicate Captured(c: string, memory: Token, files: string)
      reads agent.memory, sandbox, history
    {
      && memory.V4? && Resolve(agent.memory.saved, [], c, memory) == Ok(ViewOf(c).context)
      && sandbox.Restorable(c, files) && Contents(sandbox.SnapshotsAt(c)[files]) == Ok(ViewOf(c).trees)
    }

    /** Take both snapshots; all that changes besides is that the effective context is stored. */
    method TakeBoth(c: string, ids: Ids, checkpointFault: bool, filesFault: Option<nat>)
      returns (r: Result<(Token, string)>)
      requires sandbox.Valid() && FreshFor(c, ids)
      modifies agent.memory, sandbox`snapshots
      ensures sandbox.Valid() && agent.memory.contexts == old(agent.memory.contexts)[c := old(agent.ContextOf(c))]
      ensures Grows(old(agent.memory.saved), agent.memory.saved)
      ensures forall d :: Grows(old(sandbox.SnapshotsAt(d)), sandbox.SnapshotsAt(d))
      ensures Adds({ids.memory}, {ids.files})
      ensures r.Ok? <==> IsChatId(c) && !checkpointFault && (filesFault.None? || filesFault.value > 2)
      ensures r.Ok? ==> && r.value == (V4(c, ids.memory), ids.files) && sandbox.Restorable(c, ids.files)
                        && Contents(sandbox.SnapshotsAt(c)[ids.files]) == Ok(sandbox.TreesAt(c))
                        && Resolve(agent.memory.saved, [], c, r.value.0) == Ok(old(agent.ContextOf(c)))
    {
      hide Contents, IsSnapshotId, IsChatId;
      var memory := agent.Checkpoint(c, ids.memory, checkpointFault);
      if memory.Err? {
        return Err(memory.error);
      }
      var files := sandbox.TakeSnapshot(c, ids.files, filesFault);
      return if files.Err? then Err(files.error) else Ok((memory.value, files.value));
    }

    method Capture(c: string, ids: Ids, checkpointFault: bool, filesFault: Option<nat>)
      returns (r: Result<(Token, string)>)
      requires Valid() && FreshFor(c, ids)
      modifies agent.memory, sandbox`snapshots
      ensures Valid() && Adds({ids.memory}, {ids.files})
      ensures forall d :: ViewOf(d) == old(ViewOf(d))
      ensures r.Ok? ==> Captured(c, r.value.0, r.value.1)
      ensures r.Ok? <==> IsChatId(c) && !checkpointFault && (filesFault.None? || filesFault.value > 2)
    {
      hide Coherent, ChatRows, TableOk, Resolve, Contents, IsSnapshotId, IsChatId, Adds;
      r := TakeBoth(c, ids, checkpointFault, filesFault);
      KeepAll();
    }

    /** The chat's last turn has this request and this answer, and its context ends with that answer. */
    ghost predicate Concluded(c: string, turnId: string, text: string, answer: string)
      reads agent.memory, sandbox, history
    {
      && EndsWith(ViewOf(c).context, answer) && |ViewOf(c).rows| > 0
      && var turn := ViewOf(c).rows[|ViewOf(c).rows| - 1].turn;
         turn.id == turnId && turn.text == text && turn.answer == answer
    }

    /** Run the agent and append the turn; on failure only the chat's context may have changed. */
    method RunAndAppend(a: Attempt, fault: SubmitFault) returns (r: Result<string>)
      requires history.Valid() && agent.history == history
      modifies agent.memory`contexts, history
      ensures history.Valid()
      ensures agent.memory.contexts - {a.chat} == old(agent.memory.contexts) - {a.chat}
      ensures r.Err? ==> history.table == old(history.table)
      ensures r.Ok? ==> Appended(old(agent.ContextOf(a.chat)), old(ChatRows(history.table, a.chat)), a)
      ensures r.Ok? ==> Concluded(a.chat, a.turnId, a.text, r.value)
      ensures r.Ok? ==> forall d :: d != a.chat ==> ChatRows(history.table, d) == ChatRows(old(history.table), d)
      ensures r.Ok? <==> && !fault.run && !fault.append && FindTurn(old(history.table), a.turnId).None?
                         && WouldAnswer(agent.model, old(agent.ContextOf(a.chat)), a.text,
                                        sandbox.TreesAt(a.chat).files, a.choice)
    {
      hide WouldAnswer, EndsWith, UniqueIds;
      r := agent.Run(a.chat, a.text, sandbox.TreesAt(a.chat).files, a.choice, fault.run);
      if r.Ok? {
        var appended := history.Append(Turn(a.turnId, a.chat, a.text, r.value, a.memory, a.files), a.now, fault.append);
        if appended.Err? {
          r := Err(appended.error);
        }
      }
    }

    /** The guarded part of `submit`: run and append, or restore both stores. */
    method RunTurn(a: Attempt, fault: SubmitFault) returns (r: Result<string>)
      requires history.Valid() && sandbox.Valid() && agent.history == history
      requires a.memory.V4? && Resolve(agent.memory.saved, [], a.chat, a.memory).Ok?
      requires sandbox.Restorable(a.chat, a.files)
      modifies agent.memory`contexts, sandbox`live, history
      ensures history.Valid() && sandbox.Valid()
      ensures agent.memory.contexts - {a.chat} == old(agent.memory.contexts) - {a.chat}
      ensures forall d :: d != a.chat ==> sandbox.DirsAt(d) == old(sandbox.DirsAt(d))
      ensures r.Err? ==> history.table == old(history.table) && Restored(a)
      ensures r.Ok? ==> sandbox.live == old(sandbox.live) && Concluded(a.chat, a.turnId, a.text, r.value)
      ensures r.Ok? ==> Appended(old(agent.ContextOf(a.chat)), old(ChatRows(history.table, a.chat)), a)
      ensures r.Ok? ==> forall d :: d != a.chat ==> ChatRows(history.table, d) == ChatRows(old(history.table), d)
      ensures r.Ok? <==> && !fault.run && !fault.append && FindTurn(old(history.table), a.turnId).None?
                         && WouldAnswer(agent.model, old(agent.ContextOf(a.chat)), a.text,
                                        old(sandbox.TreesAt(a.chat)).files, a.choice)
    {
      hide ChatRows, TableOk, Resolve, Contents, WouldAnswer, Concluded, Appended;
      r := RunAndAppend(a, fault);
      if r.Err? {
        V4IgnoresRows(agent.memory.saved, ChatRows(history.table, a.chat), a.chat, a.memory);
        var restored := RestoreState(a.chat, a.memory, a.files, false, None);
      }
    }

    /** Context and files are what the attempt captured. */
    ghost predicate Restored(a: Attempt)
      reads agent.memory, sandbox
    {
      && Resolve(agent.memory.saved, [], a.chat, a.memory).Ok?
      && agent.memory.Load(a.chat) == Some(Resolve(agent.memory.saved, [], a.chat, a.memory).value)
      && sandbox.Restorable(a.chat, a.files)
      && sandbox.DirsAt(a.chat) == DirsOf(Contents(sandbox.SnapshotsAt(a.chat)[a.files]).value)
    }

    /** The chat holds the context and the extra row that a run from this context leaves behind. */
    ghost predicate Appended(context: Context, rows: seq<Stored>, a: Attempt)
      reads agent.memory, sandbox, history
    {
      var outcome := RunAgent(agent.model, context, a.text, sandbox.TreesAt(a.chat).files, a.choice);
      && outcome.Ok? && agent.memory.Load(a.chat) == Some(outcome.value)
      && ChatRows(history.table, a.chat)
         == rows + [Stored(Turn(a.turnId, a.chat, a.text, FinalText(outcome.value), a.memory, a.files),
                           |rows| + 1, a.now)]
    }

    /** Contexts that differ at most for chat c. */
    lemma OtherContexts(c: string, contexts: map<string, Context>)
      requires agent.memory.contexts - {c} == contexts - {c}
      ensures forall d :: d != c ==> agent.memory.Load(d) == if d in contexts then Some(contexts[d]) else None
    {
      forall d | d != c ensures agent.memory.Load(d) == if d in contexts then Some(contexts[d]) else None {
        assert d in agent.memory.contexts - {c} <==> d in contexts - {c};
      }
    }

    /** Both stores were restored from what was captured: nothing visible has changed. */
    twostate lemma RolledBack(a: Attempt)
      requires old(Valid()) && old(Captured(a.chat, a.memory, a.files))
      requires sandbox.Valid() && logs == old(logs) && history.table == old(history.table)
      requires agent.memory.saved == old(agent.memory.saved) && sandbox.snapshots == old(sandbox.snapshots)
      requires agent.memory.contexts - {a.chat} == old(agent.memory.contexts) - {a.chat}
      requires forall d :: d != a.chat ==> sandbox.DirsAt(d) == old(sandbox.DirsAt(d))
      requires Restored(a)
      ensures forall d :: ViewOf(d) == old(ViewOf(d))
      ensures Valid()
    {
      OtherContexts(a.chat, old(agent.memory.contexts));
      forall d ensures ViewOf(d) == old(ViewOf(d)) {
        if d == a.chat {
          assert sandbox.TreesAt(d) == old(sandbox.TreesAt(d));
        } else {
          assert sandbox.DirsAt(d) == old(sandbox.DirsAt(d));
        }
      }
      KeepAll();
    }

    /** The log after the attempt succeeded. */
    ghost function LogWith(a: Attempt): Log
      reads this`logs
    {
      Answered(LogOf(a.chat), |LogOf(a.chat).entries|, a.turnId, a.text, [], a.choice)
    }

    /** A turn was run and appended: its chat is coherent with the longer log, the others as before. */
    twostate lemma TurnAppended(a: Attempt)
      requires old(Valid()) && old(Captured(a.chat, a.memory, a.files))
      requires history.Valid() && logs == old(logs)
      requires sandbox.live == old(sandbox.live) && sandbox.snapshots == old(sandbox.snapshots)
      requires agent.memory.saved == old(agent.memory.saved)
      requires agent.memory.contexts - {a.chat} == old(agent.memory.contexts) - {a.chat}
      requires Appended(old(ViewOf(a.chat)).context, old(ChatRows(history.table, a.chat)), a)
      requires forall d :: d != a.chat ==> ChatRows(history.table, d) == old(ChatRows(history.table, d))
      ensures forall d :: d != a.chat ==> ViewOf(d) == old(ViewOf(d))
      ensures Coherent(agent.model, LogWith(a), a.chat, State(a.chat))
      ensures forall d :: d != a.chat ==> Coherent(agent.model, LogOf(d), d, State(d))
    {
      var c := a.chat;
      var before, log := old(State(c)), LogOf(c);
      assert Coherent(agent.model, log, c, before);
      assert before.rows[..|before.rows|] == before.rows;
      var rows := ChatRows(history.table, c);
      CoherentAfterTurn(agent.model, log, c, before, State(c), |log.entries|, rows[|rows| - 1], [], a.choice);
      OtherContexts(c, old(agent.memory.contexts));
      forall d | d != c ensures ViewOf(d) == old(ViewOf(d)) && Coherent(agent.model, LogOf(d), d, State(d)) {
        assert old(Coherent(agent.model, LogOf(d), d, State(d)));
        assert State(d) == old(State(d));
      }
    }

    /** Commit a new log for chat c. */
    ghost method Record(c: string, log: Log)
      requires agent.history == history && history.Valid() && sandbox.Valid()
      requires Coherent(agent.model, log, c, State(c))
      requires forall d :: d != c ==> Coherent(agent.model, LogOf(d), d, State(d))
      modifies this`logs
      ensures Valid() && logs == old(logs)[c := log]
    {
      logs := logs[c := log];
    }

    /** `RunTurn` seen from the replay. */
    method TryTurn(a: Attempt, fault: SubmitFault) returns (r: Result<string>)
      requires Valid() && Captured(a.chat, a.memory, a.files)
      modifies this`logs, agent.memory`contexts, sandbox`live, history
      ensures Valid()
      ensures r.Err? ==> logs == old(logs) && forall d :: ViewOf(d) == old(ViewOf(d))
      ensures r.Ok? ==> logs == old(logs)[a.chat := old(LogWith(a))] && Concluded(a.chat, a.turnId, a.text, r.value)
      ensures r.Ok? ==> forall d :: d != a.chat ==> ViewOf(d) == old(ViewOf(d))
      ensures r.Ok? <==> && !fault.run && !fault.append && FindTurn(old(history.table), a.turnId).None?
                         && WouldAnswer(agent.model, old(ViewOf(a.chat)).context, a.text,
                                        old(ViewOf(a.chat)).trees.files, a.choice)
    {
      hide WouldAnswer, EndsWith;
      r := RunTurn(a, fault);
      if r.Err? {
        RolledBack(a);
      } else {
        TurnAppended(a);
        Record(a.chat, LogWith(a));
      }
    }

    /** Run one new turn. A failure anywhere leaves every chat's visible state and log as they were. */
    method Submit(c: string, turnId: string, text: string, choice: nat, ids: Ids, fault: SubmitFault)
      returns (r: Result<string>)
      requires Valid() && FreshFor(c, ids)
      modifies this`logs, agent.memory, sandbox, history
      ensures Valid() && Adds({ids.memory}, {ids.files})
      ensures r.Err? ==> logs == old(logs) && forall d :: ViewOf(d) == old(ViewOf(d))
      ensures r.Ok? ==>
                logs == old(logs)[c := Answered(old(LogOf(c)), |old(LogOf(c)).entries|, turnId, text, [], choice)]
      ensures r.Ok? ==> forall d :: d != c ==> ViewOf(d) == old(ViewOf(d))
      ensures r.Ok? ==> Concluded(c, turnId, text, r.value)
      ensures r.Ok? <==> && IsChatId(c) && (fault.files.Some? ==> fault.files.value > 2)
                         && !fault.checkpoint && !fault.run && !fault.append
                         && FindTurn(old(history.table), turnId).None?
                         && WouldAnswer(agent.model, old(ViewOf(c)).context, text, old(ViewOf(c)).trees.files, choice)
    {
      hide WouldAnswer, EndsWith;
      var captured := Capture(c, ids, fault.checkpoint, fault.files);
      if captured.Err? {
        return Err(captured.error);
      }
      assert ViewOf(c) == old(ViewOf(c));
      r := TryTurn(Attempt(c, turnId, text, choice, captured.value.0, captured.value.1, ids.now), fault);
    }

    // ---- Revision -------------------------------------------------------------------------

    /** What a running revision relies on and nothing in it changes: the logs, and the snapshots
        that its rollback and the other chats need. */
    ghost predicate Frozen(tx: RevisionTransaction)
      reads this`logs, agent.memory`saved, sandbox`snapshots
    {
      && agent.history == history && IsChatId(tx.chat) && tx.original.chat == tx.chat
      && TableOk(tx.table) && tx.base.rows == ChatRows(tx.table, tx.chat)
      && tx.index < |tx.base.rows| && tx.base.rows[tx.index].turn == tx.original
      && FindTurn(tx.table, tx.original.id) == Some(tx.base.rows[tx.index])
      && tx.continuation == HistorySnapshot(tx.chat, tx.index + 1, tx.base.rows[tx.index..])
      && View(tx.base) == tx.ViewBefore(tx.chat)
      && Coherent(agent.model, LogOf(tx.chat), tx.chat, tx.base)
      && Grows(tx.base.saved, agent.memory.saved) && Grows(tx.base.archives, sandbox.SnapshotsAt(tx.chat))
      && tx.memory.V4? && Resolve(agent.memory.saved, [], tx.chat, tx.memory) == Ok(View(tx.base).context)
      && sandbox.Restorable(tx.chat, tx.files) && Contents(sandbox.SnapshotsAt(tx.chat)[tx.files]) == Ok(tx.base.trees)
      && forall d :: d != tx.chat ==>
                       Coherent(agent.model, LogOf(d), d, tx.StateBefore(d, agent.memory.saved, sandbox.SnapshotsAt(d)))
    }

    /** No other chat has been touched. */
    ghost predicate OthersKept(tx: RevisionTransaction)
      reads agent.memory`contexts, sandbox`live, history
    {
      && agent.memory.contexts - {tx.chat} == tx.contexts - {tx.chat}
      && (forall d :: d != tx.chat ==> sandbox.DirsAt(d) == tx.DirsBefore(d))
      && (forall d :: d != tx.chat ==> ChatRows(history.table, d) == ChatRows(tx.table, d))
    }

    /** The invariant of a revision between its steps. */
    ghost predicate Suspended(tx: RevisionTransaction)
      reads this, tx, agent.memory, sandbox, history
    {
      && Frozen(tx) && OthersKept(tx) && history.Valid() && sandbox.Valid()
      && (!tx.historyReplaced ==> history.table == tx.table)
      && (tx.historyReplaced ==> && tx.runStarted && Coherent(agent.model, tx.next, tx.chat, State(tx.chat))
                                 && DeleteFrom(history.table, tx.chat, tx.index + 1)
                                      == DeleteFrom(tx.table, tx.chat, tx.index + 1))
      && (!tx.runStarted ==> ViewOf(tx.chat) == tx.ViewBefore(tx.chat))
    }

    lemma OtherChats(tx: RevisionTransaction)
      requires Frozen(tx) && OthersKept(tx)
      ensures forall d :: d != tx.chat ==> ViewOf(d) == tx.ViewBefore(d) && Coherent(agent.model, LogOf(d), d, State(d))
    {
      OtherContexts(tx.chat, tx.contexts);
      forall d | d != tx.chat ensures ViewOf(d) == tx.ViewBefore(d) && Coherent(agent.model, LogOf(d), d, State(d)) {
        assert State(d) == tx.StateBefore(d, agent.memory.saved, sandbox.SnapshotsAt(d));
      }
    }

    /** Capture everything a rollback of the edit of this turn needs. */
    method OpenRevision(original: Turn, ids: Ids, fault: RevisionFault) returns (r: Result<RevisionTransaction>)
      requires Valid() && FreshFor(original.chat, ids)
      requires FindTurn(history.table, original.id).Some? && FindTurn(history.table, original.id).value.turn == original
      modifies agent.memory, sandbox`snapshots
      ensures Valid() && Adds({ids.memory}, {ids.files}) && forall d :: ViewOf(d) == old(ViewOf(d))
      ensures r.Ok? <==> && IsChatId(original.chat) && !fault.checkpoint && !fault.history
                         && (fault.files.Some? ==> fault.files.value > 2)
      ensures r.Ok? ==> && fresh(r.value) && Suspended(r.value) && !r.value.runStarted
                        && r.value.chat == original.chat && r.value.original == original
                        && r.value.index == EditedIndex(history.table, original.id)
      ensures r.Ok? ==> forall d :: r.value.ViewBefore(d) == old(ViewOf(d))
    {
      hide Coherent, Numbered, UniqueIds, Contents, IsSnapshotId, IsChatId;
      var captured := Capture(original.chat, ids, fault.checkpoint, fault.files);
      if captured.Err? {
        return Err(captured.error);
      }
      var continuation := history.SnapshotFrom(original.id, fault.history);
      if continuation.Err? {
        return Err(continuation.error);
      }
      var tx := new RevisionTransaction(original.chat, original, captured.value.0, captured.value.1, continuation.value,
                                        State(original.chat), history.table, agent.memory.contexts, sandbox.live,
                                        FindTurn(history.table, original.id).value.sequence - 1);
      Entered(tx);
      return Ok(tx);
    }

    /** Enter a revision of a turn of this chat. */
    method BeginRevision(c: string, turnId: string, ids: Ids, fault: RevisionFault)
      returns (r: Result<RevisionTransaction>)
      requires Valid() && FreshFor(c, ids)
      modifies agent.memory, sandbox`snapshots
      ensures Valid() && Adds({ids.memory}, {ids.files}) && forall d :: ViewOf(d) == old(ViewOf(d))
      ensures r.Ok? <==>
                && !fault.get && !fault.checkpoint && !fault.history && (fault.files.Some? ==> fault.files.value > 2)
                         && IsChatId(c) && Editable(history.table, c, turnId)
      ensures r.Ok? ==> && fresh(r.value) && Suspended(r.value) && !r.value.runStarted
                        && r.value.chat == c && r.value.original == FindTurn(history.table, turnId).value.turn
                        && r.value.index == EditedIndex(history.table, turnId)
      ensures r.Ok? ==> forall d :: r.value.ViewBefore(d) == old(ViewOf(d))
    {
      hide Coherence, Suspended, FreshFor, IsChatId;
      var original := history.Get(turnId, fault.get);
      if original.Err? {
        return Err(original.error);
      }
      if original.value.chat != c {
        return Err(Invalid);
      }
      r := OpenRevision(original.value, ids, fault);
    }

    lemma Entered(tx: RevisionTransaction)
      requires Valid() && IsChatId(tx.chat) && tx.original.chat == tx.chat
      requires !tx.runStarted && !tx.historyReplaced
      requires tx.base == State(tx.chat) && tx.table == history.table
      requires tx.contexts == agent.memory.contexts && tx.live == sandbox.live
      requires FindTurn(history.table, tx.original.id).Some?
      requires FindTurn(history.table, tx.original.id).value.turn == tx.original
      requires tx.index + 1 == FindTurn(history.table, tx.original.id).value.sequence
      requires tx.index < |tx.base.rows|
      requires tx.continuation == HistorySnapshot(tx.chat, tx.index + 1, tx.base.rows[tx.index..])
      requires Captured(tx.chat, tx.memory, tx.files)
      ensures Suspended(tx)
      ensures forall d :: tx.ViewBefore(d) == ViewOf(d)
    {
      FoundAt(history.table, FindTurn(history.table, tx.original.id).value);
      forall d ensures tx.StateBefore(d, agent.memory.saved, sandbox.SnapshotsAt(d)) == State(d)
                       && tx.ViewBefore(d) == ViewOf(d)
                       && Coherent(agent.model, LogOf(d), d, State(d)) {
      }
    }

    /** Upload a message's files into the restored tree, one after another. */
    method StageUploads(c: string, uploads: seq<UploadRequest>, fault: Option<nat>)
      returns (ok: bool, ghost changes: seq<FileChange>)
      requires sandbox.Valid() && IsChatId(c)
      modifies sandbox`live
      ensures sandbox.Valid()
      ensures forall d :: d != c ==> sandbox.DirsAt(d) == old(sandbox.DirsAt(d))
      ensures ok ==> && Placed(sandbox, old(sandbox.TreesAt(c)), uploads) == Some(changes)
                     && sandbox.TreesAt(c) == ApplyAll(old(sandbox.TreesAt(c)), changes)
      ensures Placed(sandbox, old(sandbox.TreesAt(c)), uploads).Some? && fault.None? ==> ok
    {
      hide Placed;
      ghost var before := sandbox.TreesAt(c);
      changes := [];
      PlacedNone(sandbox, before, uploads);
      var i := 0;
      while i < |uploads|
        invariant 0 <= i <= |uploads|
        invariant sandbox.Valid()
        invariant forall d :: d != c ==> sandbox.DirsAt(d) == old(sandbox.DirsAt(d))
        invariant Placed(sandbox, before, uploads[..i]) == Some(changes)
        invariant sandbox.TreesAt(c) == ApplyAll(before, changes)
      {
        if fault == Some(i) {
          return false, changes;
        }
        PlacedStep(sandbox, before, uploads, i, changes);
        var u := uploads[i];
        var placed := sandbox.Upload(c, u.size, u.copied, u.name, false);
        if placed.Err? {
          PlacedPrefix(sandbox, before, uploads, i + 1);
          return false, changes;
        }
        ApplyAppend(before, changes, Put(placed.value, u.copied.value));
        changes := changes + [Put(placed.value, u.copied.value)];
        i := i + 1;
      }
      assert uploads[..i] == uploads;
      return true, changes;
    }

    /** Go back to the state just before a turn. */
    method RestoreOrigin(original: Turn, fault: RevisionFault) returns (r: Result<()>, ghost start: World)
      requires sandbox.Valid() && agent.history == history
      modifies agent.memory`contexts, sandbox`live
      ensures sandbox.Valid()
      ensures agent.memory.contexts - {original.chat} == old(agent.memory.contexts) - {original.chat}
      ensures forall d :: d != original.chat ==> sandbox.DirsAt(d) == old(sandbox.DirsAt(d))
      ensures r.Ok? ==> && Starts(history.table, original, start)
                        && agent.memory.Load(original.chat) == Some(start.context)
                        && sandbox.TreesAt(original.chat) == start.trees
      ensures r.Err? && !fault.agentRestore && fault.filesRestore.None? ==>
                forall w :: !Starts(history.table, original, w)
    {
      start := World([], NO_FILES);
      r := agent.Restore(original.chat, original.memory, fault.agentRestore);
      if r.Err? {
        return;
      }
      r := sandbox.RestoreSnapshot(original.chat, original.sandbox, fault.filesRestore);
      start := World(agent.memory.contexts[original.chat], sandbox.TreesAt(original.chat));
    }

    /** Run the edited request and replace the turn's row. */
    method AnswerAndReplace(a: Rerun, fault: RevisionFault) returns (r: Result<string>)
      requires history.Valid() && agent.history == history
      requires FindTurn(history.table, a.original.id).Some?
      requires FindTurn(history.table, a.original.id).value.turn == a.original
      modifies agent.memory`contexts, history
      ensures history.Valid()
      ensures agent.memory.contexts - {a.original.chat} == old(agent.memory.contexts) - {a.original.chat}
      ensures forall d :: d != a.original.chat ==> ChatRows(history.table, d) == ChatRows(old(history.table), d)
      ensures r.Err? ==> history.table == old(history.table)
      ensures r.Ok? ==> Concluded(a.original.chat, a.original.id, a.text, r.value)
      ensures var outcome := RunAgent(agent.model, old(agent.ContextOf(a.original.chat)), a.text,
                                      sandbox.TreesAt(a.original.chat).files, a.choice);
              && (r.Ok? ==> RerunRecorded(old(history.table), a, outcome))
              && (r.Err? && !fault.run && !fault.replace ==>
                    !WouldAnswer(agent.model, old(agent.ContextOf(a.original.chat)), a.text,
                                 sandbox.TreesAt(a.original.chat).files, a.choice))
    {
      hide ChatRows, DeleteFrom, Clashes, TableOk, RunAgent, WouldAnswer, EndsWith, FinalText;
      var c := a.original.chat;
      r := agent.Run(c, a.text, sandbox.TreesAt(c).files, a.choice, fault.run);
      if r.Ok? {
        var replaced := history.ReplaceFrom(a.original.id, Replacement(a, r.value), a.now, fault.replace);
        if replaced.Err? {
          r := Err(replaced.error);
        }
      }
    }

    /** The steps of `run()` inside a revision, on the raw stores. `changes` are the uploads it staged. */
    method RerunTurn(a: Rerun, fault: RevisionFault)
      returns (r: Result<string>, ghost start: World, ghost changes: seq<FileChange>)
      requires history.Valid() && sandbox.Valid() && agent.history == history && IsChatId(a.original.chat)
      requires FindTurn(history.table, a.original.id).Some?
      requires FindTurn(history.table, a.original.id).value.turn == a.original
      modifies agent.memory`contexts, sandbox`live, history
      ensures history.Valid() && sandbox.Valid()
      ensures agent.memory.contexts - {a.original.chat} == old(agent.memory.contexts) - {a.original.chat}
      ensures forall d :: d != a.original.chat ==> sandbox.DirsAt(d) == old(sandbox.DirsAt(d))
      ensures forall d :: d != a.original.chat ==> ChatRows(history.table, d) == ChatRows(old(history.table), d)
      ensures r.Err? ==> history.table == old(history.table)
      ensures r.Ok? ==> Reran(old(history.table), a, start, changes)
                        && Concluded(a.original.chat, a.original.id, a.text, r.value)
      ensures CanRerun(old(history.table), a) && fault == NO_REVISION_FAULT ==> r.Ok?
    {
      hide RunAgent, WouldAnswer, Concluded, RerunRecorded, ChatRows, TableOk, Placed;
      changes := [];
      var origin;
      origin, start := RestoreOrigin(a.original, fault);
      if origin.Err? {
        return Err(origin.error), start, changes;
      }
      var staged;
      staged, changes := StageUploads(a.original.chat, a.uploads, fault.upload);
      if !staged {
        return Err(Interrupted), start, changes;
      }
      r := AnswerAndReplace(a, fault);
    }

    /** The state a turn is rerun from: what its two references denote. */
    ghost predicate Starts(table: Table, original: Turn, start: World)
      reads agent.memory`saved, sandbox`snapshots
    {
      && Resolve(agent.memory.saved, ChatRows(table, original.chat), original.chat, original.memory)
           == Ok(start.context)
      && sandbox.Restorable(original.chat, original.sandbox)
      && Contents(sandbox.SnapshotsAt(original.chat)[original.sandbox]) == Ok(start.trees)
    }

    ghost predicate CanRerun(table: Table, a: Rerun)
      reads agent.memory`saved, sandbox`snapshots
    {
      exists start :: Starts(table, a.original, start) && RerunFits(a, start)
    }

    ghost predicate RerunFits(a: Rerun, start: World) {
      var placed := Placed(sandbox, start.trees, a.uploads);
      && placed.Some?
      && WouldAnswer(agent.model, start.context, a.text, ApplyAll(start.trees, placed.value).files, a.choice)
    }

    /** The stores after a successful rerun from `start`. */
    ghost predicate Reran(table: Table, a: Rerun, start: World, changes: seq<FileChange>)
      reads agent.memory, sandbox, history
    {
      && Starts(table, a.original, start) && Placed(sandbox, start.trees, a.uploads) == Some(changes)
      && var trees := sandbox.TreesAt(a.original.chat);
         && trees == ApplyAll(start.trees, changes)
         && RerunRecorded(table, a, RunAgent(agent.model, start.context, a.text, trees.files, a.choice))
    }

    ghost predicate RerunRecorded(table: Table, a: Rerun, outcome: Result<Context>)
      reads agent.memory, history
    {
      var c := a.original.chat;
      && outcome.Ok? && agent.memory.Load(c) == Some(outcome.value)
      && FindTurn(table, a.original.id).Some?
      && var s := FindTurn(table, a.original.id).value.sequence;
         var row := Stored(Replacement(a, FinalText(outcome.value)), s, a.now);
         && 1 <= s <= |ChatRows(table, c)| + 1
         && history.table == DeleteFrom(table, c, s) + [row]
         && ChatRows(history.table, c) == ChatRows(table, c)[..s - 1] + [row]
    }

    /** The replayed state just before the edited turn. */
    ghost function StartOfTurn(tx: RevisionTransaction): World
      requires tx.index < |LogOf(tx.chat).entries|
      reads this`logs
    {
      StartOf(agent.model, LogOf(tx.chat).entries, tx.index)
    }

    /** The edited turn's references still denote the replayed state before it. */
    lemma OriginResolves(tx: RevisionTransaction)
      requires Frozen(tx)
      ensures tx.index < |LogOf(tx.chat).entries|
      ensures forall w :: Starts(tx.table, tx.original, w) <==> w == StartOfTurn(tx)
    {
      assert RowAt(agent.model, LogOf(tx.chat).entries, tx.chat, tx.base, tx.index);
    }

    /** A successful rerun agrees with the replay of the log that it cuts and extends. */
    lemma RevisionRan(tx: RevisionTransaction, a: Rerun, start: World, changes: seq<FileChange>)
      requires Frozen(tx) && a.original == tx.original && Reran(tx.table, a, start, changes)
      ensures Coherent(agent.model, Answered(LogOf(tx.chat), tx.index, a.original.id, a.text, changes, a.choice),
                       tx.chat, State(tx.chat))
      ensures DeleteFrom(history.table, tx.chat, tx.index + 1) == DeleteFrom(tx.table, tx.chat, tx.index + 1)
    {
      OriginResolves(tx);
      var st := State(tx.chat);
      var row := st.rows[|st.rows| - 1];
      assert tx.base.rows[tx.index].sequence == tx.index + 1 by {
        assert RowAt(agent.model, LogOf(tx.chat).entries, tx.chat, tx.base, tx.index);
      }
      CoherentAfterTurn(agent.model, LogOf(tx.chat), tx.chat, tx.base, st, tx.index, row, changes, a.choice);
      DeleteIdle(tx.table, tx.chat, tx.index + 1, row);
    }

    /** The log a revision commits is the one its rerun produced. */
    ghost predicate Replaced(tx: RevisionTransaction, a: Rerun, changes: seq<FileChange>)
      reads this`logs, tx
    {
      && tx.index < |LogOf(tx.chat).entries|
      && tx.next == Answered(LogOf(tx.chat), tx.index, a.original.id, a.text, changes, a.choice)
      && Placed(sandbox, StartOfTurn(tx).trees, a.uploads) == Some(changes)
    }

    /** Which turn the transaction edits. */
    lemma Identity(tx: RevisionTransaction)
      requires Frozen(tx)
      ensures agent.history == history && IsChatId(tx.chat) && tx.original.chat == tx.chat
      ensures FindTurn(tx.table, tx.original.id).Some? && FindTurn(tx.table, tx.original.id).value.turn == tx.original
    {
    }

    /** A rerun starts from the replayed state, and it can if its uploads and its answer fit there. */
    lemma RerunStarts(tx: RevisionTransaction, a: Rerun)
      requires Frozen(tx) && a.original == tx.original
      ensures tx.index < |LogOf(tx.chat).entries|
      ensures RerunFits(a, StartOfTurn(tx)) ==> CanRerun(tx.table, a)
      ensures forall start, changes :: Reran(tx.table, a, start, changes) ==>
                start == StartOfTurn(tx) && Placed(sandbox, start.trees, a.uploads) == Some(changes)
                && RerunFits(a, start)
    {
      OriginResolves(tx);
      forall start, changes | Reran(tx.table, a, start, changes) ensures RerunFits(a, start) {
        RunAgentIff(agent.model, start.context, a.text, ApplyAll(start.trees, changes).files, a.choice);
      }
    }

    /** `RerunTurn` seen from the transaction. */
    method FirstRun(tx: RevisionTransaction, a: Rerun, fault: RevisionFault)
      returns (r: Result<string>, ghost changes: seq<FileChange>)
      requires Suspended(tx) && a.original == tx.original && !tx.runStarted
      modifies agent.memory`contexts, sandbox`live, history
      ensures Frozen(tx) && OthersKept(tx) && history.Valid() && sandbox.Valid()
      ensures r.Err? ==> history.table == tx.table
      ensures !tx.historyReplaced && tx.index < |LogOf(tx.chat).entries|
      ensures r.Ok? ==> Reran(tx.table, a, StartOfTurn(tx), changes)
                        && Placed(sandbox, StartOfTurn(tx).trees, a.uploads) == Some(changes)
                        && RerunFits(a, StartOfTurn(tx)) && Concluded(tx.chat, a.original.id, a.text, r.value)
      ensures fault == NO_REVISION_FAULT && RerunFits(a, StartOfTurn(tx)) ==> r.Ok?
    {
      hide Frozen, Coherent, ChatRows, Reran, RerunFits, CanRerun, StartOfTurn, Placed, IsChatId, UniqueIds;
      Identity(tx);
      RerunStarts(tx, a);
      ghost var start;
      r, start, changes := RerunTurn(a, fault);
      RerunStarts(tx, a);
    }

    /** The `run` a revision hands to its caller; it works once. */
    method Run(tx: RevisionTransaction, a: Rerun, fault: RevisionFault)
      returns (r: Result<string>, ghost changes: seq<FileChange>)
      requires Suspended(tx) && a.original == tx.original
      modifies tx, agent.memory`contexts, sandbox`live, history
      ensures Suspended(tx) && tx.runStarted
      ensures old(tx.runStarted) ==>
                r == Err(Refused) && tx.historyReplaced == old(tx.historyReplaced) && tx.next == old(tx.next)
      ensures !old(tx.runStarted) ==> (r.Ok? <==> tx.historyReplaced)
      ensures r.Ok? ==> Replaced(tx, a, changes) && RerunFits(a, StartOfTurn(tx))
                        && Concluded(tx.chat, a.original.id, a.text, r.value)
      ensures !old(tx.runStarted) ==> tx.index < |LogOf(tx.chat).entries|
      ensures !old(tx.runStarted) && fault == NO_REVISION_FAULT && RerunFits(a, StartOfTurn(tx)) ==> r.Ok?
    {
      hide Coherent, Frozen, OthersKept, Suspended, Reran, RerunFits, Placed;
      if tx.runStarted {
        return Err(Refused), [];
      }
      r, changes := FirstRun(tx, a, fault);
      tx.runStarted := true;
      if r.Ok? {
        RevisionRan(tx, a, StartOfTurn(tx), changes);
        tx.next := Answered(LogOf(tx.chat), tx.index, a.original.id, a.text, changes, a.choice);
        tx.historyReplaced := true;
      }
      Settled(tx);
    }

    /** What has to hold after the run for the revision to go on. */
    lemma Settled(tx: RevisionTransaction)
      requires Frozen(tx) && OthersKept(tx) && history.Valid() && sandbox.Valid() && tx.runStarted
      requires !tx.historyReplaced ==> history.table == tx.table
      requires tx.historyReplaced ==> && Coherent(agent.model, tx.next, tx.chat, State(tx.chat))
                                      && DeleteFrom(history.table, tx.chat, tx.index + 1)
                                         == DeleteFrom(tx.table, tx.chat, tx.index + 1)
      ensures Suspended(tx)
    {
    }

    /** Put the replaced turns back, if they were replaced. */
    method RestoreTurns(tx: RevisionTransaction)
      requires Suspended(tx)
      modifies history
      ensures history.Valid()
      ensures forall d :: ChatRows(history.table, d) == ChatRows(tx.table, d)
    {
      if tx.historyReplaced {
        ReinsertContinuation(tx.table, tx.chat, tx.index + 1);
        var turns := history.RestoreSnapshot(tx.continuation);
      }
    }

    /** Put back what was captured into all three stores. */
    method RestoreStores(tx: RevisionTransaction)
      requires Suspended(tx)
      modifies agent.memory`contexts, sandbox`live, history
      ensures Frozen(tx) && history.Valid() && sandbox.Valid()
      ensures agent.memory.contexts - {tx.chat} == tx.contexts - {tx.chat}
      ensures agent.memory.Load(tx.chat) == Some(View(tx.base).context)
      ensures sandbox.TreesAt(tx.chat) == tx.base.trees
      ensures forall d :: d != tx.chat ==> sandbox.DirsAt(d) == tx.DirsBefore(d)
      ensures forall d :: ChatRows(history.table, d) == ChatRows(tx.table, d)
    {
      hide Frozen, Coherent, ChatRows, Resolve, TableOk, Contents, sandbox.Restorable;
      Recoverable(tx);
      RestoreTurns(tx);
      var restored := RestoreState(tx.chat, tx.memory, tx.files, false, None);
    }

    /** The captured references still denote what the chat showed. */
    lemma Recoverable(tx: RevisionTransaction)
      requires Frozen(tx)
      ensures agent.history == history && sandbox.Restorable(tx.chat, tx.files)
      ensures Resolve(agent.memory.saved, ChatRows(tx.table, tx.chat), tx.chat, tx.memory) == Ok(View(tx.base).context)
      ensures Contents(sandbox.SnapshotsAt(tx.chat)[tx.files]) == Ok(tx.base.trees)
    {
      V4IgnoresRows(agent.memory.saved, ChatRows(tx.table, tx.chat), tx.chat, tx.memory);
    }

    /** Compensate: context, files and, if they were replaced, the turns. */
    method RollBack(tx: RevisionTransaction)
      requires Suspended(tx)
      modifies agent.memory`contexts, sandbox`live, history
      ensures Valid()
      ensures forall d :: ViewOf(d) == tx.ViewBefore(d)
    {
      hide Frozen, Coherence, OthersKept;
      RestoreStores(tx);
      Undone(tx);
    }

    /** Restored stores show every chat as it was when the revision began. */
    lemma Undone(tx: RevisionTransaction)
      requires Frozen(tx) && history.Valid() && sandbox.Valid()
      requires agent.memory.contexts - {tx.chat} == tx.contexts - {tx.chat}
      requires agent.memory.Load(tx.chat) == Some(View(tx.base).context)
      requires sandbox.TreesAt(tx.chat) == tx.base.trees
      requires forall d :: d != tx.chat ==> sandbox.DirsAt(d) == tx.DirsBefore(d)
      requires forall d :: ChatRows(history.table, d) == ChatRows(tx.table, d)
      ensures Valid()
      ensures forall d :: ViewOf(d) == tx.ViewBefore(d)
    {
      OtherChats(tx);
      assert ViewOf(tx.chat) == View(tx.base);
      CoherentGrows(agent.model, LogOf(tx.chat), tx.chat, tx.base, State(tx.chat));
      forall d ensures Coherent(agent.model, LogOf(d), d, State(d)) && ViewOf(d) == tx.ViewBefore(d) {
      }
    }

    /** Nothing ran: the chat is as it was. */
    lemma Untouched(tx: RevisionTransaction)
      requires Suspended(tx) && !tx.runStarted
      ensures Valid()
      ensures forall d :: ViewOf(d) == tx.ViewBefore(d)
    {
      OtherChats(tx);
      assert ViewOf(tx.chat) == View(tx.base);
      CoherentGrows(agent.model, LogOf(tx.chat), tx.chat, tx.base, State(tx.chat));
      forall d ensures Coherent(agent.model, LogOf(d), d, State(d)) && ViewOf(d) == tx.ViewBefore(d) {
      }
    }

    /** Leave a revision. A body that finished commits; anything else restores what was captured,
        including the replaced turns. `committed` tells whether the caller sees an exception. */
    method EndRevision(tx: RevisionTransaction, bodyOk: bool) returns (committed: bool)
      requires Suspended(tx)
      modifies this`logs, agent.memory`contexts, sandbox`live, history
      ensures Valid()
      ensures committed <==> bodyOk && (tx.runStarted ==> tx.historyReplaced)
      ensures committed && tx.historyReplaced ==>
                logs == old(logs)[tx.chat := tx.next] && ViewOf(tx.chat) == old(ViewOf(tx.chat))
      ensures committed && tx.historyReplaced ==> forall d :: d != tx.chat ==> ViewOf(d) == tx.ViewBefore(d)
      ensures !(committed && tx.historyReplaced) ==> logs == old(logs) && forall d :: ViewOf(d) == tx.ViewBefore(d)
    {
      committed := bodyOk && (tx.runStarted ==> tx.historyReplaced);
      OtherChats(tx);
      if !committed {
        RollBack(tx);
      } else if tx.historyReplaced {
        Record(tx.chat, tx.next);
      } else {
        Untouched(tx);
      }
    }

    /** Remove every trace of a chat. Other chats keep their snapshots and stay coherent. An identifier
        that the file store refuses stops the deletion after the context, but no such chat has a turn. */
    method DeleteState(c: string) returns (r: Result<()>)
      requires Valid()
      modifies this`logs, agent.memory, sandbox, history
      ensures Valid() && Adds({}, {})
      ensures r.Ok? <==> IsChatId(c)
      ensures r.Ok? ==> && logs == old(logs) - {c}
                        && agent.memory.Load(c).None? && sandbox.DirsAt(c) == map[] && sandbox.SnapshotsAt(c) == map[]
                        && ChatRows(history.table, c) == []
      ensures forall id :: id in agent.memory.saved ==> agent.memory.saved[id].chat != c
      ensures forall d :: d != c ==> ViewOf(d) == old(ViewOf(d))
      ensures r.Err? ==> logs == old(logs) && ViewOf(c) == old(ViewOf(c))
    {
      hide ChatRows, UniqueIds, Contents;
      if !IsChatId(c) {
        NoTurns(c);
      }
      agent.memory.Delete(c);
      r := sandbox.DeleteChat(c);
      if r.Err? {
        RefusedDeletion(c);
        return;
      }
      history.DeleteChat(c);
      Deleted(c);
      logs := logs - {c};
      forall d ensures Coherent(agent.model, LogOf(d), d, State(d)) {
        if d == c {
          assert LogOf(c) == EMPTY_LOG;
        }
      }
    }

    /** A chat whose identifier the file store refuses has no snapshot, so it has no turn. */
    lemma NoTurns(c: string)
      requires Valid() && !IsChatId(c)
      ensures ChatRows(history.table, c) == [] && LogOf(c).entries == [] && ViewOf(c).context == []
      ensures c !in sandbox.live && c !in sandbox.snapshots
    {
      assert Coherent(agent.model, LogOf(c), c, State(c));
      assert sandbox.SnapshotsAt(c) == map[];
      assert |LogOf(c).entries| > 0 ==> RowAt(agent.model, LogOf(c).entries, c, State(c), 0);
    }

    twostate lemma RefusedDeletion(c: string)
      requires old(Valid()) && logs == old(logs)
      requires old(ChatRows(history.table, c) == [] && ViewOf(c).context == [])
      requires c !in old(sandbox.live) && c !in old(sandbox.snapshots)
      requires agent.memory.contexts == old(agent.memory.contexts) - {c}
      requires agent.memory.saved
               == map id | id in old(agent.memory.saved) && old(agent.memory.saved)[id].chat != c ::
                    old(agent.memory.saved)[id]
      requires sandbox.live == old(sandbox.live) && sandbox.snapshots == old(sandbox.snapshots)
      requires history.table == old(history.table)
      ensures Valid() && forall d :: ViewOf(d) == old(ViewOf(d))
    {
      hide Coherent, ChatRows, TableOk;
      assert sandbox.live == old(sandbox.live) - {c} && sandbox.snapshots == old(sandbox.snapshots) - {c};
      Deleted(c);
      assert old(Coherent(agent.model, LogOf(c), c, State(c)));
      assert ViewOf(c) == old(ViewOf(c));
      CoherentWithoutTurns(agent.model, LogOf(c), c, old(State(c)), State(c));
    }

    twostate lemma Deleted(c: string)
      requires old(Valid()) && logs == old(logs) && history.Valid() && sandbox.Valid()
      requires agent.memory.contexts == old(agent.memory.contexts) - {c}
      requires agent.memory.saved
               == map id | id in old(agent.memory.saved) && old(agent.memory.saved)[id].chat != c ::
                    old(agent.memory.saved)[id]
      requires sandbox.live == old(sandbox.live) - {c} && sandbox.snapshots == old(sandbox.snapshots) - {c}
      requires forall d :: d != c ==> ChatRows(history.table, d) == old(ChatRows(history.table, d))
      ensures forall d :: d != c ==> ViewOf(d) == old(ViewOf(d)) && Coherent(agent.model, LogOf(d), d, State(d))
    {
      forall d | d != c ensures ViewOf(d) == old(ViewOf(d)) && Coherent(agent.model, LogOf(d), d, State(d)) {
        assert State(d) == old(State(d)).(saved := agent.memory.saved);
        CoherentWithoutOthers(agent.model, LogOf(d), d, old(State(d)), agent.memory.saved);
      }
    }

    /** The uploads fit the state before the edited turn and the rerun from there answers. */
    ghost predicate CanRevise(c: string, k: int, a: Rerun)
      reads this`logs
    {
      0 <= k < |LogOf(c).entries| && RerunFits(a, StartOf(agent.model, LogOf(c).entries, k))
    }

    /** A whole revision without a caller of its own (`revise`): edit turn `turnId` of chat c. */
    method Revise(c: string, turnId: string, text: string, uploads: seq<UploadRequest>, choice: nat, ids: Ids,
                  fault: RevisionFault)
      returns (r: Result<string>, ghost changes: seq<FileChange>)
      requires Valid() && FreshFor(c, ids)
      modifies this`logs, agent.memory, sandbox, history
      ensures Valid() && Adds({ids.memory}, {ids.files})
      ensures r.Err? ==> logs == old(logs) && forall d :: ViewOf(d) == old(ViewOf(d))
      ensures r.Ok? ==> && IsChatId(c) && Editable(old(history.table), c, turnId)
                        && var k := EditedIndex(old(history.table), turnId);
                           && 0 <= k < |old(LogOf(c)).entries|
                           && Placed(sandbox, StartOf(agent.model, old(LogOf(c)).entries, k).trees, uploads)
                                == Some(changes)
                           && logs == old(logs)[c := Answered(old(LogOf(c)), k, turnId, text, changes, choice)]
      ensures r.Ok? ==> Concluded(c, turnId, text, r.value) && forall d :: d != c ==> ViewOf(d) == old(ViewOf(d))
      ensures var possible := IsChatId(c) && Editable(old(history.table), c, turnId)
                              && old(CanRevise(c, EditedIndex(history.table, turnId),
                                               Rerun(FindTurn(history.table, turnId).value.turn, text, uploads, choice,
                                                     ids.now)));
              (r.Ok? ==> possible) && (fault == NO_REVISION_FAULT && possible ==> r.Ok?)
    {
      hide Frozen, Coherent, Coherence, Placed, RerunFits, WouldAnswer, EndsWith, UniqueIds, OthersKept, FindTurn,
           ChatRows, IsChatId, Answered, FreshFor;
      var begun := BeginRevision(c, turnId, ids, fault);
      if begun.Err? {
        return Err(begun.error), [];
      }
      var tx := begun.value;
      r, changes := Run(tx, Rerun(tx.original, text, uploads, choice, ids.now), fault);
      var committed := EndRevision(tx, r.Ok?);
    }

    // ---- Whole runs -----------------------------------------------------------------------

    /** What a request comes to if nothing fails, from the logs alone: the chats as replayed decide
        whether it is accepted. */
    ghost function Effect(logs: map<string, Log>, request: Request): Step {
      var log := LogAt(logs, request.chat);
      if !IsChatId(request.chat) then Nothing
      else
        match request
        case Attach(_, upload) => UploadEffect(Current(agent.model, log), upload)
        case Say(_, turnId, text, choice, _, _) =>
          var now := Current(agent.model, log);
          if Known(logs, turnId) || !WouldAnswer(agent.model, now.context, text, now.trees.files, choice) then Nothing
          else Answer(|log.entries|, turnId, text, [], choice)
        case Edit(_, turnId, text, uploads, choice, _, _) =>
          (match TurnIn(log.entries, turnId)
           case None => Nothing
           case Some(k) => EditEffect(StartOf(agent.model, log.entries, k), k, turnId, text, uploads, choice))
        case Remove(_) => Step.Deleted
    }

    ghost function UploadEffect(now: World, upload: UploadRequest): Step {
      match Placed(sandbox, now.trees, [upload])
      case None => Nothing
      case Some(changes) => Upload(changes[0])
    }

    ghost function EditEffect(start: World, k: nat, turnId: string, text: string, uploads: seq<UploadRequest>,
                              choice: nat): Step {
      match Placed(sandbox, start.trees, uploads)
      case None => Nothing
      case Some(changes) =>
        if !WouldAnswer(agent.model, start.context, text, ApplyAll(start.trees, changes).files, choice) then Nothing
        else Answer(k, turnId, text, changes, choice)
    }

    /** Nothing of this name has been drawn before. */
    ghost predicate Unused(request: Request)
      reads agent.memory, sandbox
    {
      && (forall id :: id in MemoryIds(request) ==> id !in agent.memory.saved)
      && forall id :: id in FileIds(request) ==> IsSnapshotId(id) && forall c :: id !in sandbox.SnapshotsAt(c)
    }

    /** Identifiers as uuid4 draws them: new, and no two alike. */
    ghost predicate Drawn(requests: seq<Request>)
      reads agent.memory, sandbox
    {
      && (forall i :: 0 <= i < |requests| ==> Unused(requests[i]))
      && (forall i, j :: 0 <= i < j < |requests| ==> Apart(requests[i], requests[j]))
    }

    lemma UnusedIsFresh(request: Request)
      requires Unused(request)
      ensures request.Say? || request.Edit? ==> FreshFor(request.chat, request.ids)
    {
      if request.Say? || request.Edit? {
        assert request.ids.memory in MemoryIds(request) && request.ids.files in FileIds(request);
      }
    }

    /** An entry of a log and the row of the turn. */
    lemma RowOfEntry(c: string, k: nat)
      requires Valid() && k < |LogOf(c).entries|
      ensures var row := FindTurn(history.table, LogOf(c).entries[k].id);
              row.Some? && row.value.turn.chat == c && row.value.sequence == k + 1
    {
      assert Coherent(agent.model, LogOf(c), c, State(c));
      assert RowAt(agent.model, LogOf(c).entries, c, State(c), k);
      var row := ChatRows(history.table, c)[k];
      ChatRowsMember(history.table, c, row);
      SameIdSameRow(history.table, row, FindTurn(history.table, row.turn.id).value);
    }

    lemma EntryOfRow(turnId: string)
      requires Valid() && FindTurn(history.table, turnId).Some?
      ensures var row := FindTurn(history.table, turnId).value;
              var entries := LogOf(row.turn.chat).entries;
              1 <= row.sequence <= |entries| && entries[row.sequence - 1].id == turnId
    {
      var row := FindTurn(history.table, turnId).value;
      var c := row.turn.chat;
      FoundAt(history.table, row);
      assert Coherent(agent.model, LogOf(c), c, State(c));
      assert RowAt(agent.model, LogOf(c).entries, c, State(c), row.sequence - 1);
    }

    /** The table knows exactly the turns of the logs, each at its place. */
    lemma TurnsOfLogs(c: string, turnId: string)
      requires Valid()
      ensures FindTurn(history.table, turnId).Some? <==> Known(logs, turnId)
      ensures Editable(history.table, c, turnId) <==> TurnIn(LogOf(c).entries, turnId).Some?
      ensures Editable(history.table, c, turnId) ==>
                TurnIn(LogOf(c).entries, turnId) == Some(EditedIndex(history.table, turnId))
    {
      hide Coherence;
      if FindTurn(history.table, turnId).Some? {
        EntryOfRow(turnId);
        var d := FindTurn(history.table, turnId).value.turn.chat;
        assert d in logs && TurnIn(logs[d].entries, turnId).Some?;
      }
      if Known(logs, turnId) {
        var d :| d in logs && TurnIn(logs[d].entries, turnId).Some?;
        RowOfEntry(d, TurnIn(logs[d].entries, turnId).value);
      }
      if TurnIn(LogOf(c).entries, turnId).Some? {
        RowOfEntry(c, TurnIn(LogOf(c).entries, turnId).value);
      }
    }

    /** What a chat shows is its replay. */
    lemma ShowsReplay(c: string)
      requires Valid()
      ensures World(ViewOf(c).context, ViewOf(c).trees) == Current(agent.model, LogOf(c))
    {
      assert Coherent(agent.model, LogOf(c), c, State(c));
    }

    /** The requests that draw no identifiers. */
    method ServePlain(request: Request) returns (ghost step: Step)
      requires Valid() && (request.Attach? || request.Remove?)
      modifies this`logs, agent.memory, sandbox, history
      ensures Valid() && Adds({}, {})
      ensures step == Effect(old(logs), request) && logs == NextLogs(old(logs), request, step)
    {
      hide Coherent, Coherence, Placed, Current;
      var c := request.chat;
      ShowsReplay(c);
      step := Nothing;
      match request {
        case Attach(_, upload) =>
          var r := UploadFile(c, upload);
          if r.Ok? {
            step := Upload(Put(r.value, upload.copied.value));
          }
        case Remove(_) =>
          var r := DeleteState(c);
          if r.Ok? {
            step := Step.Deleted;
          }
      }
    }

    method ServeSay(request: Request) returns (ghost step: Step)
      requires Valid() && request.Say? && FreshFor(request.chat, request.ids)
      modifies this`logs, agent.memory, sandbox, history
      ensures Valid() && Adds(MemoryIds(request), FileIds(request))
      ensures step == if Undisturbed(request) then Effect(old(logs), request) else Nothing
      ensures logs == NextLogs(old(logs), request, step)
    {
      hide Coherent, Coherence, Current, WouldAnswer, Known;
      ShowsReplay(request.chat);
      TurnsOfLogs(request.chat, request.turnId);
      ghost var k := |LogOf(request.chat).entries|;
      var r := Submit(request.chat, request.turnId, request.text, request.choice, request.ids, request.fault);
      step := if r.Ok? then Answer(k, request.turnId, request.text, [], request.choice) else Nothing;
    }

    method ServeEdit(request: Request) returns (ghost step: Step)
      requires Valid() && request.Edit? && FreshFor(request.chat, request.ids)
      modifies this`logs, agent.memory, sandbox, history
      ensures Valid() && Adds(MemoryIds(request), FileIds(request))
      ensures step.Nothing? || step == Effect(old(logs), request)
      ensures Undisturbed(request) ==> step == Effect(old(logs), request)
      ensures logs == NextLogs(old(logs), request, step)
    {
      hide Coherent, Coherence, WouldAnswer, Placed;
      var c, turnId := request.chat, request.turnId;
      TurnsOfLogs(c, turnId);
      ghost var table := history.table;
      var r, changes := Revise(c, turnId, request.text, request.uploads, request.choice, request.ids, request.faults);
      step := if r.Ok? then Answer(EditedIndex(table, turnId), turnId, request.text, changes, request.choice)
              else Nothing;
    }

    /** Serve one request. One that draws an identifier twice is not served. */
    method ServeOne(request: Request) returns (ghost step: Step)
      requires Valid()
      modifies this`logs, agent.memory, sandbox, history
      ensures Valid() && forall later :: old(Unused(later)) && Apart(request, later) ==> Unused(later)
      ensures ComesTo(request, Effect(old(logs), request), step, old(Unused(request)))
      ensures logs == NextLogs(old(logs), request, step)
    {
      hide Coherent, Coherence, Effect, FreshFor;
      step := Nothing;
      if Unused(request) {
        UnusedIsFresh(request);
      }
      match request {
        case Say(c, _, _, _, ids, _) =>
          if FreshFor(c, ids) {
            step := ServeSay(request);
          }
        case Edit(c, _, _, _, _, ids, _) =>
          if FreshFor(c, ids) {
            step := ServeEdit(request);
          }
        case _ =>
          step := ServePlain(request);
      }
    }

    /** Step j is what its request may come to on the logs that the earlier steps left. */
    ghost predicate ServedAt(first: map<string, Log>, requests: seq<Request>, steps: seq<Step>, j: nat, drawn: bool)
      requires j < |steps| <= |requests|
    {
      ComesTo(requests[j], Effect(LogsAfter(first, requests[..j], steps[..j]), requests[j]), steps[j], drawn)
    }

    /** Replay equivalence over whole runs of the coordinator: after any requests, wherever they failed,
        each chat agrees with a fresh replay of the turns that survive. The requests and the places
        where they fail decide which ones do. */
    method Serve(requests: seq<Request>) returns (ghost steps: seq<Step>)
      requires Valid()
      modifies this`logs, agent.memory, sandbox, history
      ensures Valid() && |steps| == |requests|
      ensures logs == LogsAfter(old(logs), requests, steps)
      ensures forall j :: 0 <= j < |steps| ==> ServedAt(old(logs), requests, steps, j, old(Drawn(requests)))
      ensures forall c :: Coherent(agent.model, LogAt(LogsAfter(old(logs), requests, steps), c), c, State(c))
    {
      hide Coherent, Coherence, Effect, LogsAfter, NextLogs, Unused, Apart, ServedAt, Undisturbed;
      steps := [];
      ghost var drawn := Drawn(requests);
      var i := 0;
      NothingServed(logs, requests);
      while i < |requests|
        invariant 0 <= i <= |requests| && |steps| == i && Valid()
        invariant logs == LogsAfter(old(logs), requests[..i], steps)
        invariant forall j :: 0 <= j < i ==> ServedAt(old(logs), requests, steps, j, drawn)
        invariant drawn ==> forall j :: i <= j < |requests| ==> Unused(requests[j])
      {
        ghost var step := ServeOne(requests[i]);
        OneMoreServed(old(logs), requests, steps, step, drawn);
        steps := steps + [step];
        i := i + 1;
      }
      assert requests[..i] == requests;
      forall c ensures Coherent(agent.model, LogAt(LogsAfter(old(logs), requests, steps), c), c, State(c)) {
        CoherentOf(c);
      }
    }

    lemma CoherentOf(c: string)
      requires Valid()
      ensures Coherent(agent.model, LogOf(c), c, State(c))
    {
    }

    lemma NothingServed(logs: map<string, Log>, requests: seq<Request>)
      ensures LogsAfter(logs, requests[..0], []) == logs
    {
    }

    lemma OneMoreServed(first: map<string, Log>, requests: seq<Request>, steps: seq<Step>, step: Step, drawn: bool)
      requires |steps| < |requests|
      requires forall j :: 0 <= j < |steps| ==> ServedAt(first, requests, steps, j, drawn)
      requires var now := LogsAfter(first, requests[..|steps|], steps);
               ComesTo(requests[|steps|], Effect(now, requests[|steps|]), step, drawn)
      ensures forall j :: 0 <= j <= |steps| ==> ServedAt(first, requests, steps + [step], j, drawn)
      ensures LogsAfter(first, requests[..|steps| + 1], steps + [step])
              == NextLogs(LogsAfter(first, requests[..|steps|], steps), requests[|steps|], step)
    {
      hide Effect, NextLogs, ComesTo;
      var n := |steps|;
      assert requests[..n + 1][..n] == requests[..n] && (steps + [step])[..n] == steps;
      forall j | 0 <= j <= n ensures ServedAt(first, requests, steps + [step], j, drawn) {
        assert (steps + [step])[..j] == steps[..j];
        if j < n {
          assert ServedAt(first, requests, steps, j, drawn);
        }
      }
    }

    /** The logs after these requests if nothing fails. */
    ghost function Ideal(first: map<string, Log>, requests: seq<Request>): map<string, Log> {
      if |requests| == 0 then first
      else
        var before := Ideal(first, requests[..|requests| - 1]);
        NextLogs(before, requests[|requests| - 1], Effect(before, requests[|requests| - 1]))
    }

    /** Failures leave no trace: the logs are those of a run that was asked for the surviving requests
        only and in which nothing failed. */
    lemma {:induction false} FailuresLeaveNoTrace(first: map<string, Log>, requests: seq<Request>, steps: seq<Step>)
      requires |requests| == |steps|
      requires forall j :: 0 <= j < |steps| ==> ServedAt(first, requests, steps, j, false)
      ensures LogsAfter(first, requests, steps) == Ideal(first, Survivors(requests, steps))
    {
      hide Effect;
      if |steps| == 0 {
      } else {
        var n := |steps| - 1;
        forall j | 0 <= j < n ensures ServedAt(first, requests[..n], steps[..n], j, false) {
          assert ServedAt(first, requests, steps, j, false);
          assert requests[..n][..j] == requests[..j] && steps[..n][..j] == steps[..j];
        }
        FailuresLeaveNoTrace(first, requests[..n], steps[..n]);
        assert ServedAt(first, requests, steps, n, false);
        if steps[n].Nothing? {
          assert Survivors(requests, steps) == Survivors(requests[..n], steps[..n]);
        } else {
          var all := Survivors(requests, steps);
          assert all[..|all| - 1] == Survivors(requests[..n], steps[..n]);
        }
      }
    }

    /** A run in which nothing fails. */
    lemma {:induction false} UndisturbedRun(first: map<string, Log>, requests: seq<Request>, steps: seq<Step>)
      requires |requests| == |steps| && forall j :: 0 <= j < |steps| ==> Undisturbed(requests[j])
      requires forall j :: 0 <= j < |steps| ==> ServedAt(first, requests, steps, j, true)
      ensures LogsAfter(first, requests, steps) == Ideal(first, requests)
    {
      hide Effect, NextLogs;
      if |steps| == 0 {
      } else {
        var n := |steps| - 1;
        forall j | 0 <= j < n ensures ServedAt(first, requests[..n], steps[..n], j, true) {
          assert ServedAt(first, requests, steps, j, true);
          assert requests[..n][..j] == requests[..j] && steps[..n][..j] == steps[..j];
        }
        UndisturbedRun(first, requests[..n], steps[..n]);
        assert ServedAt(first, requests, steps, n, true);
      }
    }
  }

  /** Two runtimes, or one at two times, whose logs agree on a chat show the same chat, however many
      edits and failures led there. */
  lemma SameSurvivors(a: ChatRuntime, b: ChatRuntime, c: string)
    requires a.Valid() && b.Valid() && a.agent.model == b.agent.model && a.LogOf(c) == b.LogOf(c)
    ensures ShowsTheSame(a.ViewOf(c), b.ViewOf(c))
  {
    assert Coherent(a.agent.model, a.LogOf(c), c, a.State(c));
    assert Coherent(b.agent.model, b.LogOf(c), c, b.State(c));
    CoherentDecides(a.agent.model, a.LogOf(c), c, a.State(c), b.State(c));
  }

  lemma V4IgnoresRows(saved: map<string, Saved>, rows: seq<Stored>, c: string, token: Token)
    requires token.V4?
    ensures Resolve(saved, rows, c, token) == Resolve(saved, [], c, token)
  {
  }

  lemma PlacedNone(sandbox: SandboxFiles, trees: Trees, uploads: seq<UploadRequest>)
    ensures Placed(sandbox, trees, uploads[..0]) == Some([]) && ApplyAll(trees, []) == trees
  {
  }

  lemma OneUpload(sandbox: SandboxFiles, trees: Trees, upload: UploadRequest)
    ensures Placed(sandbox, trees, [upload])
            == if upload.size <= sandbox.maxFileBytes
                  && sandbox.Fits(trees.files, upload.size, upload.copied, upload.name, false)
               then Some([Put(FreeName(trees.files, upload.name), upload.copied.value)]) else None
  {
    PlacedNone(sandbox, trees, [upload]);
    PlacedStep(sandbox, trees, [upload], 0, []);
    assert [upload][..1] == [upload];
    assert forall change: FileChange :: [] + [change] == [change];
  }

  /** One more upload: it fits what the earlier ones left, or the whole batch fails. */
  lemma PlacedStep(sandbox: SandboxFiles, trees: Trees, uploads: seq<UploadRequest>, i: nat, changes: seq<FileChange>)
    requires i < |uploads| && Placed(sandbox, trees, uploads[..i]) == Some(changes)
    ensures var files, u := ApplyAll(trees, changes).files, uploads[i];
            Placed(sandbox, trees, uploads[..i + 1])
            == if u.size <= sandbox.maxFileBytes && sandbox.Fits(files, u.size, u.copied, u.name, false)
               then Some(changes + [Put(FreeName(files, u.name), u.copied.value)]) else None
  {
    assert uploads[..i + 1][..i] == uploads[..i];
  }

  /** If a prefix of the uploads does not fit, neither do all of them. */
  lemma {:induction false} PlacedPrefix(sandbox: SandboxFiles, trees: Trees, uploads: seq<UploadRequest>, k: nat)
    requires k <= |uploads| && Placed(sandbox, trees, uploads[..k]).None?
    ensures Placed(sandbox, trees, uploads).None?
    decreases |uploads| - k
  {
    if k < |uploads| {
      assert uploads[..k + 1][..k] == uploads[..k];
      PlacedPrefix(sandbox, trees, uploads, k + 1);
    } else {
      assert uploads[..k] == uploads;
    }
  }
}
