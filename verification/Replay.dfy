/** The reference semantics of a chat: replay only its surviving turns from nothing. `Coherent`
    says that the three stores of a chat agree with that replay, and the lemmas below carry it
    through uploads, new turns and revisions. */
module Replay {
  import opened Wrappers
  import opened Conversation
  import opened History
  import opened S = SandboxFiles

  /** One run of the graph: messages, readable files and whatever the provider happens to choose. */
  type Model = (Context, Tree, nat) -> Context

  /** A change to the files between or inside turns; `Earlier` is a state left by an older release. */
  datatype FileChange = Put(name: string, content: Bytes) | Earlier(trees: Trees)

  datatype Source = Imported(answer: string) | Generated(choice: nat)

  /** A surviving turn: file changes before its snapshot, then those a revision staged, then the run. */
  datatype Entry = Entry(id: string, text: string, before: seq<FileChange>, during: seq<FileChange>, source: Source)

  /** The surviving turns and the file changes since the last of them. */
  datatype Log = Log(entries: seq<Entry>, pending: seq<FileChange>)

  datatype World = World(context: Context, trees: Trees)

  const EMPTY_LOG := Log([], [])
  const NO_FILES := Trees(map[], map[])

  function ApplyChange(t: Trees, change: FileChange): Trees {
    match change
    case Put(name, content) => t.(files := t.files[name := content])
    case Earlier(trees) => trees
  }

  function ApplyAll(t: Trees, changes: seq<FileChange>): Trees {
    if |changes| == 0 then t
    else ApplyChange(ApplyAll(t, changes[..|changes| - 1]), changes[|changes| - 1])
  }

  function Perform(model: Model, w: World, e: Entry): World {
    var trees := ApplyAll(w.trees, e.during);
    match e.source
    case Imported(answer) =>
      World(w.context + [Human(e.text, e.id), Assistant(answer, "answer-" + e.id, false)], trees)
    case Generated(choice) =>
      World(model(w.context + [Human(e.text, "")], trees.files, choice), trees)
  }

  /** The replay of a list of turns. */
  function After(model: Model, entries: seq<Entry>): World {
    if |entries| == 0 then World([], NO_FILES)
    else
      var n := |entries| - 1;
      var w := After(model, entries[..n]);
      Perform(model, World(w.context, ApplyAll(w.trees, entries[n].before)), entries[n])
  }

  /** The replayed state just before turn j. */
  function StartOf(model: Model, entries: seq<Entry>, j: nat): World
    requires j < |entries|
  {
    var w := After(model, entries[..j]);
    World(w.context, ApplyAll(w.trees, entries[j].before))
  }

  function Current(model: Model, log: Log): World {
    var w := After(model, log.entries);
    World(w.context, ApplyAll(w.trees, log.pending))
  }

  function AnswerOf(model: Model, entries: seq<Entry>, j: nat): string
    requires j < |entries|
  {
    match entries[j].source
    case Imported(answer) => answer
    case Generated(choice) => FinalText(After(model, entries[..j + 1]).context)
  }

  // ---- The stores of one chat -----------------------------------------------------------

  datatype ChatState = ChatState(
    context: Option<Context>, saved: map<string, Saved>,
    trees: Trees, archives: map<string, Snapshot>, rows: seq<Stored>)

  /** An absent context stands for the visible history, which the next run imports. */
  function EffectiveContext(context: Option<Context>, rows: seq<Stored>): Context {
    match context
    case Some(messages) => messages
    case None => Pairs(rows)
  }

  /** The context a checkpoint token stands for, or the error a restore raises. */
  function Resolve(saved: map<string, Saved>, rows: seq<Stored>, c: string, token: Token): Result<Context> {
    match token
    case V4(chat, id) =>
      if chat != c || id !in saved || saved[id].chat != c then Err(Invalid) else Ok(saved[id].messages)
    case Legacy(owner, _) =>
      if owner.Some? && owner.value != c then Err(Invalid) else Before(rows, token)
    case UnsupportedVersion => Err(Invalid)
    case Malformed => Err(Invalid)
  }

  /** Row j is turn j of the log, and both of its rollback references denote the replayed state
      just before it. */
  ghost predicate RowAt(model: Model, entries: seq<Entry>, c: string, st: ChatState, j: nat) {
    && j < |entries| && j < |st.rows|
    && st.rows[j].sequence == j + 1
    && var turn := st.rows[j].turn;
       && turn.chat == c && turn.id == entries[j].id && turn.text == entries[j].text
       && turn.answer == AnswerOf(model, entries, j)
       && Resolve(st.saved, st.rows, c, turn.memory) == Ok(StartOf(model, entries, j).context)
       && IsSnapshotId(turn.sandbox) && turn.sandbox in st.archives
       && Contents(st.archives[turn.sandbox]) == Ok(StartOf(model, entries, j).trees)
  }

  ghost predicate Coherent(model: Model, log: Log, c: string, st: ChatState) {
    && |st.rows| == |log.entries|
    && (forall j :: 0 <= j < |log.entries| ==> RowAt(model, log.entries, c, st, j))
    && EffectiveContext(st.context, st.rows) == Current(model, log).context
    && st.trees == Current(model, log).trees
  }

  /** What a user can observe of a chat. */
  datatype Visible = Visible(context: Context, trees: Trees, rows: seq<Stored>)

  function View(st: ChatState): Visible {
    Visible(EffectiveContext(st.context, st.rows), st.trees, st.rows)
  }

  ghost predicate Grows<K, V>(a: map<K, V>, b: map<K, V>) {
    forall k :: k in a ==> k in b && a[k] == b[k]
  }

  /** Same visible state, more snapshots. */
  ghost predicate Extends(st: ChatState, st': ChatState) {
    View(st) == View(st') && Grows(st.saved, st'.saved) && Grows(st.archives, st'.archives)
  }

  lemma CoherentGrows(model: Model, log: Log, c: string, st: ChatState, st': ChatState)
    requires Coherent(model, log, c, st) && Extends(st, st')
    ensures Coherent(model, log, c, st')
  {
    forall j | 0 <= j < |log.entries| ensures RowAt(model, log.entries, c, st', j) {
      assert RowAt(model, log.entries, c, st, j);
    }
  }

  /** Dropping the context snapshots of other chats does not disturb a chat. */
  lemma CoherentWithoutOthers(model: Model, log: Log, c: string, st: ChatState, saved: map<string, Saved>)
    requires Coherent(model, log, c, st)
    requires forall id :: id in st.saved && st.saved[id].chat == c ==> id in saved && saved[id] == st.saved[id]
    ensures Coherent(model, log, c, st.(saved := saved))
  {
    forall j | 0 <= j < |log.entries| ensures RowAt(model, log.entries, c, st.(saved := saved), j) {
      assert RowAt(model, log.entries, c, st, j);
    }
  }

  /** A chat without turns depends on its visible state only. */
  lemma CoherentWithoutTurns(model: Model, log: Log, c: string, st: ChatState, st': ChatState)
    requires Coherent(model, log, c, st) && st.rows == [] && View(st) == View(st')
    ensures Coherent(model, log, c, st')
  {
  }

  // ---- Uploads ---------------------------------------------------------------------------

  function Uploaded(log: Log, change: FileChange): Log {
    log.(pending := log.pending + [change])
  }

  lemma ApplyAppend(t: Trees, changes: seq<FileChange>, change: FileChange)
    ensures ApplyAll(t, changes + [change]) == ApplyChange(ApplyAll(t, changes), change)
  {
    assert (changes + [change])[..|changes|] == changes;
  }

  lemma CoherentAfterUpload(model: Model, log: Log, c: string, st: ChatState, change: FileChange)
    requires Coherent(model, log, c, st)
    ensures Coherent(model, Uploaded(log, change), c, st.(trees := ApplyChange(st.trees, change)))
  {
    var st' := st.(trees := ApplyChange(st.trees, change));
    ApplyAppend(After(model, log.entries).trees, log.pending, change);
    forall j | 0 <= j < |log.entries| ensures RowAt(model, log.entries, c, st', j) {
      assert RowAt(model, log.entries, c, st, j);
    }
  }

  // ---- Turns ------------------------------------------------------------------------------

  /** The log after turn k (a new one when k is the number of turns) was run with these inputs. */
  function Answered(log: Log, k: nat, id: string, text: string, during: seq<FileChange>, choice: nat): Log
    requires k <= |log.entries|
  {
    var before := if k < |log.entries| then log.entries[k].before else log.pending;
    Log(log.entries[..k] + [Entry(id, text, before, during, Generated(choice))], [])
  }

  /** The state turn k starts from: a recorded one, or the present for a new turn. */
  function Origin(model: Model, log: Log, k: nat): World
    requires k <= |log.entries|
  {
    if k < |log.entries| then StartOf(model, log.entries, k) else Current(model, log)
  }

  lemma StartPrefix(model: Model, a: seq<Entry>, b: seq<Entry>, j: nat)
    requires j < |a| && j < |b| && a[..j] == b[..j] && a[j].before == b[j].before
    ensures StartOf(model, a, j) == StartOf(model, b, j)
  {
  }

  lemma BeforePrefix(rows: seq<Stored>, rows': seq<Stored>, token: Token, k: nat)
    requires FirstWith(rows, token) < k <= |rows| && k <= |rows'|
    requires rows[..k] == rows'[..k]
    ensures Before(rows', token) == Before(rows, token)
  {
    var i := FirstWith(rows, token);
    assert forall j :: 0 <= j < k ==> rows[j] == rows[..k][j] && rows'[j] == rows'[..k][j];
    assert rows[..i] == rows'[..i];
  }

  /** Cutting the table at row k and appending another row keeps what the tokens of rows before k
      mean, and the meaning of row k's own token when the new row carries it on. */
  lemma ResolvePrefix(saved: map<string, Saved>, saved': map<string, Saved>, rows: seq<Stored>, rows': seq<Stored>,
                      c: string, j: nat, k: nat)
    requires Grows(saved, saved')
    requires j <= k < |rows'| && j < |rows| && k <= |rows| && rows'[..k] == rows[..k]
    requires j == k ==> rows'[k].turn.memory == rows[k].turn.memory
    requires Resolve(saved, rows, c, rows[j].turn.memory).Ok?
    ensures Resolve(saved', rows', c, rows[j].turn.memory) == Resolve(saved, rows, c, rows[j].turn.memory)
  {
    var token := rows[j].turn.memory;
    if token.Legacy? {
      var i := FirstWith(rows, token);
      assert i <= j;
      assert forall x :: 0 <= x < k ==> rows[x] == rows[..k][x] && rows'[x] == rows'[..k][x];
      if i < k {
        BeforePrefix(rows, rows', token, k);
      } else {
        assert FirstWith(rows', token) == k;
        assert rows[..k] == rows'[..k];
      }
    }
  }

  /** The heart of both `submit` and `revise`: cut the turns at k, run from the state turn k
      starts from, and the stores agree with the replay of the shorter log again. */
  lemma CoherentAfterTurn(model: Model, log: Log, c: string, st: ChatState, st': ChatState,
                          k: nat, row: Stored, during: seq<FileChange>, choice: nat)
    requires Coherent(model, log, c, st) && k <= |log.entries|
    requires Grows(st.saved, st'.saved) && Grows(st.archives, st'.archives)
    requires st'.rows == st.rows[..k] + [row]
    requires row.sequence == k + 1 && row.turn.chat == c
    requires var origin := Origin(model, log, k);
             && st'.trees == ApplyAll(origin.trees, during)
             && st'.context == Some(model(origin.context + [Human(row.turn.text, "")], st'.trees.files, choice))
             && Answers(st'.context.value) && row.turn.answer == FinalText(st'.context.value)
    requires k < |log.entries| ==>
               row.turn.memory == st.rows[k].turn.memory && row.turn.sandbox == st.rows[k].turn.sandbox
    requires k == |log.entries| ==>
               && Resolve(st'.saved, st'.rows, c, row.turn.memory) == Ok(Origin(model, log, k).context)
               && IsSnapshotId(row.turn.sandbox) && row.turn.sandbox in st'.archives
               && Contents(st'.archives[row.turn.sandbox]) == Ok(Origin(model, log, k).trees)
    ensures Coherent(model, Answered(log, k, row.turn.id, row.turn.text, during, choice), c, st')
  {
    hide Resolve, Contents, Answers, FinalText, After, StartOf, Current, Origin;
    var entries' := Answered(log, k, row.turn.id, row.turn.text, during, choice).entries;
    AnsweredWorld(model, log, k, row.turn.id, row.turn.text, during, choice);
    assert st'.rows[..k] == st.rows[..k];
    forall j | 0 <= j < |entries'| ensures RowAt(model, entries', c, st', j) {
      if j < k {
        RowKept(model, log.entries, entries', c, st, st', j, k);
      } else {
        LastRow(model, log, c, st, st', k, during, choice);
      }
    }
  }

  /** What the extended log replays to. */
  lemma AnsweredWorld(model: Model, log: Log, k: nat, id: string, text: string, during: seq<FileChange>, choice: nat)
    requires k <= |log.entries|
    ensures var log', origin := Answered(log, k, id, text, during, choice), Origin(model, log, k);
            var trees := ApplyAll(origin.trees, during);
            var context := model(origin.context + [Human(text, "")], trees.files, choice);
            && |log'.entries| == k + 1 && log'.entries[..k] == log.entries[..k]
            && StartOf(model, log'.entries, k) == origin
            && Current(model, log') == World(context, trees)
            && AnswerOf(model, log'.entries, k) == FinalText(context)
  {
    var entries' := Answered(log, k, id, text, during, choice).entries;
    assert entries'[..k] == log.entries[..k];
    assert entries'[..k + 1] == entries';
    assert log.entries[..|log.entries|] == log.entries;
    assert StartOf(model, entries', k) == Origin(model, log, k);
    assert After(model, entries') == Perform(model, StartOf(model, entries', k), entries'[k]);
  }

  lemma LastRow(model: Model, log: Log, c: string, st: ChatState, st': ChatState, k: nat, during: seq<FileChange>,
                choice: nat)
    requires Coherent(model, log, c, st) && k <= |log.entries| && |st'.rows| == k + 1 && st'.rows[..k] == st.rows[..k]
    requires Grows(st.saved, st'.saved) && Grows(st.archives, st'.archives)
    requires var row, origin := st'.rows[k], Origin(model, log, k);
             && row.sequence == k + 1 && row.turn.chat == c
             && row.turn.answer == FinalText(model(origin.context + [Human(row.turn.text, "")],
                                                ApplyAll(origin.trees, during).files, choice))
             && (k < |log.entries| ==>
                    row.turn.memory == st.rows[k].turn.memory && row.turn.sandbox == st.rows[k].turn.sandbox)
             && (k == |log.entries| ==>
                   && Resolve(st'.saved, st'.rows, c, row.turn.memory) == Ok(origin.context)
                   && IsSnapshotId(row.turn.sandbox) && row.turn.sandbox in st'.archives
                   && Contents(st'.archives[row.turn.sandbox]) == Ok(origin.trees))
    ensures RowAt(model, Answered(log, k, st'.rows[k].turn.id, st'.rows[k].turn.text, during, choice).entries,
                  c, st', k)
  {
    hide Resolve, Contents, FinalText, After, StartOf, AnswerOf;
    AnsweredWorld(model, log, k, st'.rows[k].turn.id, st'.rows[k].turn.text, during, choice);
    if k < |log.entries| {
      assert RowAt(model, log.entries, c, st, k);
      ResolvePrefix(st.saved, st'.saved, st.rows, st'.rows, c, k, k);
    }
  }

  lemma RowKept(model: Model, entries: seq<Entry>, entries': seq<Entry>, c: string, st: ChatState, st': ChatState,
                j: nat, k: nat)
    requires RowAt(model, entries, c, st, j)
    requires j < k <= |entries| && k < |entries'| && entries'[..k] == entries[..k]
    requires k <= |st.rows| && k < |st'.rows| && st'.rows[..k] == st.rows[..k]
    requires Grows(st.saved, st'.saved) && Grows(st.archives, st'.archives)
    ensures RowAt(model, entries', c, st', j)
  {
    assert entries'[j] == entries'[..k][j] == entries[..k][j] == entries[j];
    assert st'.rows[j] == st'.rows[..k][j] == st.rows[..k][j] == st.rows[j];
    assert entries'[..j] == entries'[..k][..j] == entries[..k][..j] == entries[..j];
    assert entries'[..j + 1] == entries'[..k][..j + 1] == entries[..k][..j + 1] == entries[..j + 1];
    StartPrefix(model, entries, entries', j);
    ResolvePrefix(st.saved, st'.saved, st.rows, st'.rows, c, j, k);
  }

  // ---- Whole runs --------------------------------------------------------------------------

  /** What a request comes to. `Answer` is a `submit` when k is the number of turns and a committed
      revision of turn k otherwise; `Nothing` is any request that failed. */
  datatype Step =
    | Upload(change: FileChange)
    | Answer(k: nat, id: string, text: string, during: seq<FileChange>, choice: nat)
    | Deleted
    | Nothing

  function NextLog(log: Log, step: Step): Log {
    match step
    case Upload(change) => Uploaded(log, change)
    case Answer(k, id, text, during, choice) =>
      if k <= |log.entries| then Answered(log, k, id, text, during, choice) else log
    case Deleted => EMPTY_LOG
    case Nothing => log
  }

  /** Same context, files, requests and answers; checkpoints, snapshots and clock times may differ. */
  ghost predicate ShowsTheSame(a: Visible, b: Visible) {
    && a.context == b.context && a.trees == b.trees && |a.rows| == |b.rows|
    && forall j :: 0 <= j < |a.rows| ==> SameTurn(a.rows[j], b.rows[j])
  }

  ghost predicate SameTurn(a: Stored, b: Stored) {
    && a.sequence == b.sequence && a.turn.id == b.turn.id && a.turn.chat == b.turn.chat
    && a.turn.text == b.turn.text && a.turn.answer == b.turn.answer
  }

  lemma CoherentDecides(model: Model, log: Log, c: string, st: ChatState, st': ChatState)
    requires Coherent(model, log, c, st) && Coherent(model, log, c, st')
    ensures ShowsTheSame(View(st), View(st'))
  {
    forall j | 0 <= j < |st.rows| ensures SameTurn(st.rows[j], st'.rows[j]) {
      assert RowAt(model, log.entries, c, st, j) && RowAt(model, log.entries, c, st', j);
    }
  }

  // ---- Chats imported from an older release ------------------------------------------------

  /** The log that explains the rows of an older release, given the files before each turn and now. */
  function ImportedLog(rows: seq<Stored>, files: seq<Trees>): Log
    requires |files| == |rows| + 1
  {
    Log(ImportedEntries(rows, files), [Earlier(files[|rows|])])
  }

  function ImportedEntries(rows: seq<Stored>, files: seq<Trees>): (r: seq<Entry>)
    requires |files| >= |rows|
    ensures |r| == |rows|
  {
    if |rows| == 0 then []
    else
      var n := |rows| - 1;
      ImportedEntries(rows[..n], files)
      + [Entry(rows[n].turn.id, rows[n].turn.text, [Earlier(files[n])], [], Imported(rows[n].turn.answer))]
  }

  lemma {:induction false} ImportedPrefix(rows: seq<Stored>, files: seq<Trees>, j: nat)
    requires j <= |rows| <= |files|
    ensures ImportedEntries(rows, files)[..j] == ImportedEntries(rows[..j], files)
    ensures j < |rows| ==>
              ImportedEntries(rows, files)[j]
              == Entry(rows[j].turn.id, rows[j].turn.text, [Earlier(files[j])], [], Imported(rows[j].turn.answer))
  {
    if j < |rows| {
      var n := |rows| - 1;
      if j < n {
        ImportedPrefix(rows[..n], files, j);
        assert rows[..n][..j] == rows[..j];
      }
      var e := ImportedEntries(rows[..n], files);
      assert ImportedEntries(rows, files)[..j] == e[..j];
    } else {
      assert rows[..j] == rows;
    }
  }

  lemma {:induction false} ImportedContext(model: Model, rows: seq<Stored>, files: seq<Trees>)
    requires |rows| <= |files|
    ensures After(model, ImportedEntries(rows, files)).context == Pairs(rows)
  {
    if |rows| == 0 {
    } else {
      var n := |rows| - 1;
      ImportedContext(model, rows[..n], files);
      ImportedPrefix(rows, files, n);
    }
  }

  /** A row of an older release: a legacy token and a snapshot (version 1 or 2) of the files then. */
  ghost predicate LegacyRow(c: string, st: ChatState, files: Trees, j: nat) {
    && j < |st.rows| && st.rows[j].sequence == j + 1
    && var turn := st.rows[j].turn;
       && turn.chat == c
       && turn.memory.Legacy? && (turn.memory.owner.Some? ==> turn.memory.owner.value == c)
       && IsSnapshotId(turn.sandbox) && turn.sandbox in st.archives
       && Contents(st.archives[turn.sandbox]) == Ok(files)
  }

  lemma ImportedRow(model: Model, c: string, st: ChatState, files: seq<Trees>, j: nat)
    requires |files| == |st.rows| + 1 && j < |st.rows| && LegacyRow(c, st, files[j], j)
    requires forall i :: 0 <= i < j ==> st.rows[i].turn.memory != st.rows[j].turn.memory
    ensures RowAt(model, ImportedEntries(st.rows, files), c, st, j)
  {
    var entries := ImportedEntries(st.rows, files);
    ImportedPrefix(st.rows, files, j);
    ImportedContext(model, st.rows[..j], files);
    assert FirstWith(st.rows, st.rows[j].turn.memory) == j;
    assert entries[j].before[..0] == [];
    assert StartOf(model, entries, j).trees == files[j];
  }

  lemma {:induction false} PairsLength(rows: seq<Stored>)
    ensures |Pairs(rows)| == 2 * |rows|
  {
    if |rows| == 0 {
    } else {
      PairsLength(rows[..|rows| - 1]);
    }
  }

  ghost predicate DistinctTokens(rows: seq<Stored>) {
    forall i, j :: 0 <= i < j < |rows| ==> rows[i].turn.memory != rows[j].turn.memory
  }

  /** A row that repeats an earlier legacy token cannot be rolled back to. */
  lemma RepeatedToken(model: Model, c: string, st: ChatState, files: seq<Trees>, i: nat, j: nat)
    requires |files| == |st.rows| + 1 && i < j < |st.rows|
    requires st.rows[j].turn.memory.Legacy? && st.rows[i].turn.memory == st.rows[j].turn.memory
    ensures !RowAt(model, ImportedEntries(st.rows, files), c, st, j)
  {
    var token := st.rows[j].turn.memory;
    var first := FirstWith(st.rows, token);
    ImportedPrefix(st.rows, files, j);
    ImportedContext(model, st.rows[..j], files);
    PairsLength(st.rows[..first]);
    PairsLength(st.rows[..j]);
  }

  /** A chat of an older release, without a stored context, is coherent exactly if its legacy tokens
      are distinct, because a token is found by comparing it with the rows from the first one on. */
  lemma ImportedChatIsCoherent(model: Model, c: string, st: ChatState, files: seq<Trees>)
    requires |files| == |st.rows| + 1
    requires st.context.None? && st.trees == files[|st.rows|]
    requires forall j :: 0 <= j < |st.rows| ==> LegacyRow(c, st, files[j], j)
    ensures Coherent(model, ImportedLog(st.rows, files), c, st) <==> DistinctTokens(st.rows)
  {
    var log := ImportedLog(st.rows, files);
    ImportedContext(model, st.rows, files);
    assert log.pending[..0] == [];
    if DistinctTokens(st.rows) {
      forall j | 0 <= j < |log.entries| ensures RowAt(model, log.entries, c, st, j) {
        ImportedRow(model, c, st, files, j);
      }
    } else {
      var i, j :| 0 <= i < j < |st.rows| && st.rows[i].turn.memory == st.rows[j].turn.memory;
      assert LegacyRow(c, st, files[j], j);
      RepeatedToken(model, c, st, files, i, j);
    }
  }

  /** For example: of two turns that share a token the later one resolves to the history before the
      earlier one. */
  lemma SharedTokenLosesATurn()
    ensures var token := Legacy(None, "thread-1");
            var rows := [Stored(Turn("a", "chat", "first", "one", token, ""), 1, 0),
                         Stored(Turn("b", "chat", "second", "two", token, ""), 2, 0)];
            Resolve(map[], rows, "chat", rows[1].turn.memory) == Ok([]) && Pairs(rows[..1]) != []
  {
    var token := Legacy(None, "thread-1");
    var rows := [Stored(Turn("a", "chat", "first", "one", token, ""), 1, 0),
                 Stored(Turn("b", "chat", "second", "two", token, ""), 2, 0)];
    assert rows[0].turn.memory == token;
    assert FirstWith(rows, token) == 0;
    assert |Pairs(rows[..1])| >= 2;
  }
}
