/** Editing a message (app.py): the UI transaction nested in the runtime transaction. Whatever fails
    on the way, either every store is as before the edit or every store holds the revision. */
module App {
  import opened Wrappers
  import opened Conversation
  import opened History
  import opened Replay
  import opened Runtime
  import opened ChainlitData
  import opened DataLayer
  import opened S = SandboxFiles

  /** The edit_message payload, once it is known to be well formed. */
  datatype Edit = Edit(id: string, text: string)

  /** The step writes that the turn view schedules in each phase. */
  datatype TurnView = TurnView(start: seq<StepWrite>, events: seq<StepWrite>, failure: seq<StepWrite>,
                               complete: seq<StepWrite>)

  /** Where an awaited step of an edit fails or is cancelled. `lost` names the steps whose background
      writes fail; `cancelled` tells whether a failed run failed because of Stop. */
  datatype EditFault = EditFault(
    lookup: bool, update: bool, prepare: bool, revision: RevisionFault, wait: bool, truncate: bool, sync: bool,
    start: bool, cancelled: bool, failure: bool, complete: bool, lost: set<string>, commit: bool, toast: bool,
    blobs: BlobFault)

  const NO_EDIT_FAULT :=
    EditFault(false, false, false, NO_REVISION_FAULT, false, false, false,
              false, false, false, false, {}, false, false, NO_BLOB_FAULT)

  /** How handling a message ends: with an answer, with a failure already shown, or with an exception. */
  datatype Handled = Done(answer: string) | Rendered | Raised(error: Error)

  datatype EditOutcome =
    | Ignored                  // nothing to do: same text, no editable turn, or the chat is being deleted
    | Rejected(error: Error)   // failed before anything was staged
    | Failed                   // failed afterwards
    | Revised(answer: string)

  function AsWrites(ws: seq<StepWrite>): (r: seq<Write>)
    ensures |r| == |ws|
  {
    seq(|ws|, i requires 0 <= i < |ws| => WriteStep(ws[i]))
  }

  function StepIds(ws: seq<StepWrite>): set<string> {
    set w | w in ws :: w.id
  }

  function EditOf(t: Tables, edit: Edit): StepWrite
    requires edit.id in t.steps
  {
    var step := t.steps[edit.id];
    StepWrite(edit.id, step.thread, step.kind, step.columns["output" := edit.text])
  }

  /** The UI tables of a committed edit. */
  function Committing(t: Tables, edit: Edit, written: seq<StepWrite>): Tables
    requires edit.id in t.steps && t.steps[edit.id].kind == "user_message"
    requires Output(t.steps[edit.id].columns) != Some(edit.text)
    requires edit.id in t.archives ==> edit.id in t.archives[edit.id].steps
  {
    var saved := Updated(t, EditOf(t, edit));
    assert HasRoot(saved, edit.id) by {
      ArchivesRoot(t, edit.id);
    }
    Committed(WrittenAll(Truncated(saved, edit.id), AsWrites(written)), edit.id)
  }

  /** A later step of the thread of `root`. */
  ghost predicate After(t: Tables, root: string, id: string) {
    && root in t.steps && id in t.steps
    && t.steps[id].thread == t.steps[root].thread && t.steps[id].order > t.steps[root].order
  }

  /** What a committed edit leaves, row by row: the message has its new text and is otherwise the same,
      later steps are gone with all that was attached to them, unless the new turn wrote them again,
      and everything else is as before, the attachments of the message included. */
  ghost predicate OnlyLaterGone(t: Tables, u: Tables, edit: Edit, written: set<string>) {
    && edit.id in t.steps && edit.id in u.steps
    && (edit.id !in written ==>
          && u.steps[edit.id].thread == t.steps[edit.id].thread && u.steps[edit.id].kind == t.steps[edit.id].kind
          && u.steps[edit.id].order == t.steps[edit.id].order
          && u.steps[edit.id].columns == t.steps[edit.id].columns["output" := edit.text])
    && (forall id :: id in t.steps && id != edit.id && !After(t, edit.id, id) ==>
          id in u.steps && u.steps[id] == t.steps[id])
    && (forall id :: id in u.steps && id !in written ==> id in t.steps && !After(t, edit.id, id))
    && (forall e :: e in t.elements && !After(t, edit.id, t.elements[e].forId) ==>
          e in u.elements && u.elements[e] == t.elements[e])
    && (forall e :: e in u.elements ==> e in t.elements && !After(t, edit.id, t.elements[e].forId))
    && (forall f :: f in t.feedbacks && !After(t, edit.id, t.feedbacks[f].forId) ==>
          f in u.feedbacks && u.feedbacks[f] == t.feedbacks[f])
    && (forall f :: f in u.feedbacks ==> f in t.feedbacks && !After(t, edit.id, t.feedbacks[f].forId))
  }

  ghost predicate AllOwnSteps(first: Tables, root: string, ws: seq<StepWrite>) {
    forall w :: w in ws ==> OwnStep(first, root, w)
  }

  /** The view writes steps of its own: fresh identifiers, or steps that the edit replaces anyway. */
  ghost predicate OwnView(first: Tables, root: string, view: TurnView) {
    && AllOwnSteps(first, root, view.start) && AllOwnSteps(first, root, view.events)
    && AllOwnSteps(first, root, view.failure) && AllOwnSteps(first, root, view.complete)
  }

  /** The tables now and before the first uncommitted edit of this root. */
  ghost predicate Since(first: Tables, t: Tables, root: string) {
    if root in t.archives then Diverged(first, t, root) else first == t
  }

  // ---- The shape of a committed edit -----------------------------------------------------

  lemma {:induction false} WritesRevise(before: Tables, t: Tables, root: string, ws: seq<StepWrite>)
    requires ChainlitData.Revised(before, t, root, {})
    requires forall w :: w in ws ==>
               w.thread == before.steps[root].thread && (w.id in before.steps ==> w.id in Replaceable(before, root))
    ensures ChainlitData.Revised(before, WrittenAll(t, AsWrites(ws)), root, StepIds(ws))
  {
    if |ws| > 0 {
      var n := |ws| - 1;
      WritesRevise(before, t, root, ws[..n]);
      assert AsWrites(ws)[..n] == AsWrites(ws[..n]);
      var u := WrittenAll(t, AsWrites(ws[..n]));
      assert ws == ws[..n] + [ws[n]];
      assert StepIds(ws) == StepIds(ws[..n]) + {ws[n].id};
      UpsertRevises(before, u, root, StepIds(ws[..n]), ws[n]);
    } else {
      assert StepIds(ws) == {};
    }
  }

  /** An archive of the root, if there is one, has the root where it is now. */
  lemma SinceInPlace(first: Tables, t: Tables, root: string)
    requires Since(first, t, root) && root in t.steps
    ensures root in t.archives ==> RootInPlace(t, root)
  {
    hide StepsDiverged, ElementsDiverged, FeedbacksDiverged;
    if root in t.archives {
      ArchivesRoot(first, root);
    }
  }

  lemma SinceArchives(first: Tables, t: Tables, root: string)
    requires Since(first, t, root) && root !in first.archives
    ensures first.archives == t.archives - {root}
  {
    hide StepsDiverged, ElementsDiverged, FeedbacksDiverged, ArchiveOf;
  }

  lemma OwnReplaceable(first: Tables, t: Tables, root: string, ws: seq<StepWrite>)
    requires Since(first, t, root) && root in t.steps && AllOwnSteps(first, root, ws)
    ensures forall w :: w in ws ==>
              w.thread == t.steps[root].thread && (w.id in t.steps ==> w.id in Replaceable(t, root))
  {
    hide StepsDiverged, ElementsDiverged, FeedbacksDiverged;
    forall w | w in ws ensures w.thread == t.steps[root].thread && (w.id in t.steps ==> w.id in Replaceable(t, root)) {
      if root in t.archives {
        UpsertTentative(first, t, root, w);
      }
    }
  }

  /** Exactly the old prefix, the edited root and the newly written steps remain, and no archive of
      this edit; the archives of other edits stay. */
  lemma CommitRevises(first: Tables, t: Tables, edit: Edit, ws: seq<StepWrite>)
    requires edit.id in t.steps && t.steps[edit.id].kind == "user_message"
    requires Output(t.steps[edit.id].columns) != Some(edit.text)
    requires Since(first, t, edit.id) && AllOwnSteps(first, edit.id, ws) && DistinctOrders(t.steps)
    ensures edit.id in t.archives ==> edit.id in t.archives[edit.id].steps
    ensures ChainlitData.Revised(t, Committing(t, edit, ws), edit.id, StepIds(ws))
  {
    hide Since, AllOwnSteps, ChainlitData.Revised, DistinctOrders, Replaceable, ArchiveOf, Continuation,
         Upserted, StepIds, AsWrites, WrittenAll;
    var root := edit.id;
    var w := EditOf(t, edit);
    SinceInPlace(first, t, root);
    TruncateRevises(t, w);
    var cut := Truncated(Updated(t, w), root);
    OwnReplaceable(first, t, root, ws);
    WritesRevise(t, cut, root, ws);
    CommitKeepsSteps(t, WrittenAll(cut, AsWrites(ws)), root, StepIds(ws));
  }

  /** Saving the edit changes the text of the message and nothing else that is live. */
  lemma SavedEdit(t: Tables, edit: Edit)
    requires edit.id in t.steps && t.steps[edit.id].kind == "user_message"
    requires Output(t.steps[edit.id].columns) != Some(edit.text)
    requires edit.id in t.archives ==> RootInPlace(t, edit.id)
    ensures var saved := Updated(t, EditOf(t, edit));
            && RootInPlace(saved, edit.id) && saved.elements == t.elements && saved.feedbacks == t.feedbacks
            && saved.steps == t.steps[edit.id := WithText(t.steps[edit.id], edit.text)]
  {
    var columns := t.steps[edit.id].columns;
    assert columns + columns["output" := edit.text] == columns["output" := edit.text];
    UpdatedRoot(t, EditOf(t, edit));
    hide ArchiveOf, RootInPlace;
  }

  function WithText(step: ChainlitData.Step, text: string): ChainlitData.Step {
    step.(columns := step.columns["output" := text])
  }

  /** The edit, saved and cut but without the new turn's steps. */
  lemma CutKeeps(t: Tables, saved: Tables, edit: Edit)
    requires edit.id in t.steps && RootInPlace(saved, edit.id)
    requires saved.elements == t.elements && saved.feedbacks == t.feedbacks
    requires saved.steps == t.steps[edit.id := WithText(t.steps[edit.id], edit.text)]
    ensures OnlyLaterGone(t, Truncated(saved, edit.id), edit, {})
  {
    var cut := Continuation(saved.steps, t.steps[edit.id].thread, t.steps[edit.id].order + 1);
    assert forall id :: id in cut <==> After(t, edit.id, id);
    hide Continuation, After;
  }

  lemma {:induction false} WritesOnlySteps(t: Tables, ws: seq<StepWrite>)
    ensures var u := WrittenAll(t, AsWrites(ws));
            && u.elements == t.elements && u.feedbacks == t.feedbacks && u.steps.Keys == t.steps.Keys + StepIds(ws)
            && forall id :: id in t.steps && id !in StepIds(ws) ==> u.steps[id] == t.steps[id]
  {
    if |ws| == 0 {
      assert StepIds(ws) == {};
    } else {
      var n := |ws| - 1;
      WritesOnlySteps(t, ws[..n]);
      assert AsWrites(ws)[..n] == AsWrites(ws[..n]);
      assert ws == ws[..n] + [ws[n]];
      assert StepIds(ws) == StepIds(ws[..n]) + {ws[n].id};
      UpsertedOne(WrittenAll(t, AsWrites(ws[..n])), ws[n]);
    }
  }

  /** The last write of a step decides its thread, its kind and the columns it names. */
  lemma {:induction false} LastWriteShows(t: Tables, ws: seq<StepWrite>, i: nat)
    requires i < |ws| && forall j :: i < j < |ws| ==> ws[j].id != ws[i].id
    ensures var u, w := WrittenAll(t, AsWrites(ws)), ws[i];
            && w.id in u.steps && u.steps[w.id].thread == w.thread && u.steps[w.id].kind == w.kind
            && forall k :: k in w.columns ==> k in u.steps[w.id].columns && u.steps[w.id].columns[k] == w.columns[k]
  {
    var n := |ws| - 1;
    assert AsWrites(ws)[..n] == AsWrites(ws[..n]);
    UpsertMerges(WrittenAll(t, AsWrites(ws[..n])), ws[n]);
    if i < n {
      LastWriteShows(t, ws[..n], i);
    }
  }

  /** A committed edit is what its description says. */
  lemma CommitKeeps(first: Tables, t: Tables, edit: Edit, ws: seq<StepWrite>)
    requires edit.id in t.steps && t.steps[edit.id].kind == "user_message"
    requires Output(t.steps[edit.id].columns) != Some(edit.text)
    requires Since(first, t, edit.id) && AllOwnSteps(first, edit.id, ws) && DistinctOrders(t.steps)
    ensures edit.id in t.archives ==> edit.id in t.archives[edit.id].steps
    ensures OnlyLaterGone(t, Committing(t, edit, ws), edit, StepIds(ws))
  {
    hide Since, AllOwnSteps, Replaceable, ArchiveOf, Continuation, Upserted, StepIds, AsWrites, WrittenAll, Updated,
         Truncated;
    SinceInPlace(first, t, edit.id);
    CommitRevises(first, t, edit, ws);
    SavedEdit(t, edit);
    CutKeeps(t, Updated(t, EditOf(t, edit)), edit);
    WritesOnlySteps(Truncated(Updated(t, EditOf(t, edit)), edit.id), ws);
    UnlessReplaceable(t, edit.id);
  }

  /** With injective orders, a step that the edit may replace is the message or comes later. */
  lemma UnlessReplaceable(t: Tables, root: string)
    requires root in t.steps && DistinctOrders(t.steps)
    ensures forall id :: id in Replaceable(t, root) ==> id == root || After(t, root, id)
  {
  }

  lemma CommitForgets(t: Tables, edit: Edit, ws: seq<StepWrite>)
    requires edit.id in t.steps && t.steps[edit.id].kind == "user_message"
    requires Output(t.steps[edit.id].columns) != Some(edit.text)
    requires edit.id in t.archives ==> edit.id in t.archives[edit.id].steps
    ensures Committing(t, edit, ws).archives == t.archives - {edit.id}
  {
    hide ArchiveOf, Continuation, AsWrites;
    ArchivesRoot(t, edit.id);
    WritesKeepArchives(Truncated(Updated(t, EditOf(t, edit)), edit.id), AsWrites(ws));
  }

  lemma CommitKeepsSteps(before: Tables, t: Tables, root: string, written: set<string>)
    requires ChainlitData.Revised(before, t, root, written)
    ensures ChainlitData.Revised(before, Committed(t, root), root, written)
  {
  }

  lemma {:induction false} WritesKeepArchives(t: Tables, ws: seq<Write>)
    ensures WrittenAll(t, ws).archives == t.archives
  {
    if |ws| == 0 {
    } else {
      WritesKeepArchives(t, ws[..|ws| - 1]);
    }
  }

  lemma {:induction false} WriteConcat(t: Tables, a: seq<StepWrite>, b: seq<StepWrite>)
    ensures WrittenAll(t, AsWrites(a + b)) == WrittenAll(WrittenAll(t, AsWrites(a)), AsWrites(b))
  {
    hide Written;
    if |b| == 0 {
      assert a + b == a;
    } else {
      var n := |b| - 1;
      WriteConcat(t, a, b[..n]);
      assert AsWrites(a + b)[..|a| + n] == AsWrites(a + b[..n]);
      assert AsWrites(b)[..n] == AsWrites(b[..n]);
    }
  }

  class LocalChat {
    const layer: SQLiteChainlitDataLayer
    const runtime: ChatRuntime
    var deleting: set<string>

    constructor (layer: SQLiteChainlitDataLayer, runtime: ChatRuntime)
      requires runtime.Valid() && layer.Sound()
      ensures Valid() && this.layer == layer && this.runtime == runtime && deleting == {}
    {
      this.layer, this.runtime, deleting := layer, runtime, {};
    }

    /** What holds between any two calls: replay equivalence for every chat, and sound UI tables. */
    ghost predicate Valid()
      reads runtime, runtime.agent.memory, runtime.sandbox, runtime.history, layer
    {
      runtime.Valid() && layer.Sound()
    }

    /** Tables that can be put back: their orders are injective and their blobs are stored. */
    ghost predicate Recoverable(first: Tables)
      reads layer
    {
      DistinctOrders(first.steps) && KeysOf(first.elements) <= layer.blobs
    }

    /** The tables before the first uncommitted edit of this root: the present ones, up to the tentative
        continuation of an earlier attempt if there is one. */
    ghost predicate Undoable(first: Tables, root: string)
      reads layer
    {
      Since(first, layer.Db(), root) && root !in first.archives && Recoverable(first)
    }

    /** Every live element that names a blob finds it. */
    ghost predicate BlobsStored()
      reads layer
    {
      forall e :: e in layer.elements && layer.elements[e].objectKey.Some? ==>
                    layer.elements[e].objectKey.value in layer.blobs
    }

    lemma SoundStores()
      requires layer.Sound()
      ensures BlobsStored()
    {
      KeysOfAre(layer.elements);
    }

    /** An edit that nothing has staged before can be undone to the present tables. */
    lemma FirstEdit(root: string)
      requires layer.Sound() && root !in layer.archives
      ensures Undoable(layer.Db(), root)
    {
    }

    /** An edit of this root is staged and can be undone. */
    ghost predicate Tentative(first: Tables, root: string)
      reads layer
    {
      layer.Sound() && Recoverable(first) && Diverged(first, layer.Db(), root)
    }

    ghost predicate Undone(first: Tables)
      reads layer
    {
      layer.Sound() && layer.Db() == first
    }

    /** Write steps one after another. Every write is attempted, as draining does; the lost ones fail. */
    method WriteSteps(ws: seq<StepWrite>, lost: set<string>, ghost first: Tables, ghost root: string)
      returns (stored: bool)
      requires Tentative(first, root) && AllOwnSteps(first, root, ws)
      modifies layer`steps
      ensures Tentative(first, root)
      ensures stored <==> StepIds(ws) !! lost
      ensures stored ==> layer.Db() == WrittenAll(old(layer.Db()), AsWrites(ws))
    {
      hide Diverged, OwnStep, Upserted, DistinctOrders, KeysOf;
      stored := true;
      var i := 0;
      assert ws[..0] == [];
      while i < |ws|
        invariant 0 <= i <= |ws| && Tentative(first, root)
        invariant stored <==> StepIds(ws[..i]) !! lost
        invariant stored ==> layer.Db() == WrittenAll(old(layer.Db()), AsWrites(ws[..i]))
      {
        UpsertDiverges(first, layer.Db(), root, ws[i]);
        OwnKeepsOrder(first, layer.Db(), root, ws[i]);
        var r := layer.CreateStep(ws[i], ws[i].id in lost);
        stored := stored && r.Ok?;
        assert ws[..i + 1] == ws[..i] + [ws[i]];
        assert AsWrites(ws[..i + 1])[..i] == AsWrites(ws[..i]);
        assert StepIds(ws[..i + 1]) == StepIds(ws[..i]) + {ws[i].id};
        i := i + 1;
      }
      assert ws[..i] == ws;
    }

    /** Cut the continuation and show the turn up to the end of its run. */
    method CutAndShow(root: string, view: TurnView, fault: EditFault, ghost first: Tables)
      returns (going: bool, stored: bool)
      requires Tentative(first, root) && OwnView(first, root, view)
      modifies layer`steps, layer`elements, layer`feedbacks
      ensures Tentative(first, root) && HasRoot(old(layer.Db()), root)
      ensures going <==> !fault.truncate && !fault.sync && !fault.start
      ensures going && fault.lost == {} ==> stored
      ensures going && stored ==>
                layer.Db() == WrittenAll(Truncated(old(layer.Db()), root), AsWrites(view.start + view.events))
    {
      hide Diverged, OwnStep, Truncated, WrittenAll, AllOwnSteps, AsWrites, KeysOf, DistinctOrders;
      TruncateDiverges(first, layer.Db(), root);
      TruncateKeepsOrder(layer.Db(), root);
      var truncated := layer.Truncate(root, fault.truncate);
      if truncated.Err? || fault.sync {
        return false, false;
      }
      ghost var cut := layer.Db();
      var started := WriteSteps(view.start, fault.lost, first, root);
      if fault.start {
        return false, false;
      }
      var shown := WriteSteps(view.events, fault.lost, first, root);
      WriteConcat(cut, view.start, view.events);
      return true, started && shown;
    }

    /** The body of the UI transaction: cut, show, run and complete the turn. */
    method RunShown(tx: RevisionTransaction, a: Rerun, view: TurnView, fault: EditFault, ghost first: Tables)
      returns (r: Handled, ghost changes: seq<FileChange>)
      requires runtime.Suspended(tx) && a.original == tx.original && !tx.runStarted
      requires Tentative(first, tx.original.id) && OwnView(first, tx.original.id, view)
      modifies tx, runtime.agent.memory`contexts, runtime.sandbox`live, runtime.history
      modifies layer`steps, layer`elements, layer`feedbacks
      ensures runtime.Suspended(tx) && Tentative(first, tx.original.id)
      ensures r.Done? ==> && tx.historyReplaced && runtime.Replaced(tx, a, changes)
                          && runtime.Concluded(tx.chat, a.original.id, a.text, r.answer)
                          && HasRoot(old(layer.Db()), tx.original.id)
                          && layer.Db() == WrittenAll(Truncated(old(layer.Db()), tx.original.id),
                                                      AsWrites(view.start + view.events + view.complete))
      ensures fault == NO_EDIT_FAULT && old(CanRerun(tx, a)) ==> r.Done?
    {
      hide Diverged, OwnStep, runtime.Suspended, runtime.Replaced, runtime.Concluded, Truncated, WrittenAll,
           runtime.RerunFits,
           AllOwnSteps, AsWrites, KeysOf, DistinctOrders;
      var going, stored := CutAndShow(tx.original.id, view, fault, first);
      if !going {
        return Raised(Interrupted), [];
      }
      var answer;
      answer, changes := runtime.Run(tx, a, fault.revision);
      var last := if answer.Ok? then view.complete else view.failure;
      var completed := WriteSteps(last, fault.lost, first, tx.original.id);
      if answer.Err? {
        r := if fault.failure || fault.cancelled then Raised(Interrupted) else Rendered;
      } else if fault.complete || !stored || !completed {
        r := Raised(Interrupted);
      } else {
        WriteConcat(Truncated(old(layer.Db()), tx.original.id), view.start + view.events, view.complete);
        r := Done(answer.value);
      }
    }

    /** The rerun has all it needs: its uploads fit and the agent answers. */
    ghost predicate CanRerun(tx: RevisionTransaction, a: Rerun)
      reads runtime
    {
      tx.index < |runtime.LogOf(tx.chat).entries| && runtime.RerunFits(a, runtime.StartOfTurn(tx))
    }

    /** The UI transaction: wait until the edit is staged, then commit the body's outcome or restore. */
    method ReviseUi(tx: RevisionTransaction, a: Rerun, view: TurnView, fault: EditFault, ghost first: Tables)
      returns (r: Handled, ghost changes: seq<FileChange>)
      requires runtime.Suspended(tx) && a.original == tx.original && !tx.runStarted
      requires Tentative(first, tx.original.id) && OwnView(first, tx.original.id, view)
      modifies tx, runtime.agent.memory`contexts, runtime.sandbox`live, runtime.history, layer
      ensures runtime.Suspended(tx)
      ensures r.Done? ==> && tx.historyReplaced && runtime.Replaced(tx, a, changes)
                          && runtime.Concluded(tx.chat, a.original.id, a.text, r.answer)
                          && HasRoot(old(layer.Db()), tx.original.id) && layer.Sound()
                          && layer.Db() == Committed(WrittenAll(Truncated(old(layer.Db()), tx.original.id),
                                                                AsWrites(view.start + view.events + view.complete)),
                                                    tx.original.id)
      ensures r.Rendered? ==> Undone(first)
      ensures r.Raised? ==> Undone(first) || Tentative(first, tx.original.id)
      ensures fault == NO_EDIT_FAULT && old(CanRerun(tx, a)) ==> r.Done?
    {
      hide Diverged, OwnView, runtime.Suspended, runtime.Replaced, runtime.Concluded, Truncated, WrittenAll, AsWrites,
           KeysOf, DistinctOrders, CanRerun, Restored;
      if fault.wait || !layer.IsStaged(tx.original.id) {
        Staged(first, tx.original.id);
        return Raised(Refused), [];
      }
      r, changes := RunShown(tx, a, view, fault, first);
      if !r.Done? {
        UndoEdit(tx.original.id, fault.blobs, first);
        return;
      }
      var committed := layer.Commit(tx.original.id, fault.commit, fault.blobs);
      if committed.Err? {
        UndoEdit(tx.original.id, fault.blobs, first);
        return Raised(committed.error), changes;
      }
    }

    lemma Staged(first: Tables, root: string)
      requires Tentative(first, root)
      ensures layer.IsStaged(root)
    {
    }

    /** Restore the continuation, whether or not it was already restored. */
    method UndoEdit(root: string, fault: BlobFault, ghost first: Tables)
      requires (Undone(first) && root !in first.archives) || Tentative(first, root)
      modifies layer
      ensures Undone(first)
    {
      hide Restored, KeysOf, DistinctOrders;
      if Undone(first) && root !in first.archives {
        NothingToUndo(first, root);
      } else {
        ExactUndo(first, layer.Db(), root);
      }
      var restored := layer.Restore(root, fault);
    }

    /** Run an edited message again: the UI transaction inside the runtime transaction. */
    method HandleRevision(c: string, edit: Edit, uploads: seq<UploadRequest>, choice: nat, ids: Ids,
                          view: TurnView, fault: EditFault, ghost first: Tables)
      returns (r: Handled, ghost changes: seq<FileChange>)
      requires runtime.Valid() && runtime.FreshFor(c, ids)
      requires Tentative(first, edit.id) && OwnView(first, edit.id, view)
      modifies runtime`logs, runtime.agent.memory, runtime.sandbox, runtime.history, layer
      ensures runtime.Valid()
      ensures r.Done? ==> && TurnRevised(old(runtime.logs), old(runtime.history.table), c, edit, uploads, choice,
                                         changes)
                          && runtime.Concluded(c, edit.id, edit.text, r.answer)
      ensures r.Done? ==> && HasRoot(old(layer.Db()), edit.id) && layer.Sound()
                          && layer.Db() == Committed(WrittenAll(Truncated(old(layer.Db()), edit.id),
                                                                AsWrites(view.start + view.events + view.complete)),
                                                    edit.id)
      ensures r.Done? ==> forall d :: d != c ==> runtime.ViewOf(d) == old(runtime.ViewOf(d))
      ensures !r.Done? ==> runtime.logs == old(runtime.logs) && forall d :: runtime.ViewOf(d) == old(runtime.ViewOf(d))
      ensures r.Rendered? ==> Undone(first)
      ensures r.Raised? ==> Undone(first) || Tentative(first, edit.id)
      ensures fault == NO_EDIT_FAULT && old(Revisable(c, edit, uploads, choice, ids)) ==> r.Done?
    {
      hide Diverged, OwnView, runtime.Coherence, runtime.Suspended, EndsWith, Truncated, WrittenAll, KeysOf,
           DistinctOrders, runtime.RerunFits, Placed;
      if fault.prepare {
        return Raised(Interrupted), [];
      }
      var begun := runtime.BeginRevision(c, edit.id, ids, fault.revision);
      if begun.Err? {
        return Raised(begun.error), [];
      }
      var tx := begun.value;
      r, changes := ReviseUi(tx, Rerun(tx.original, edit.text, uploads, choice, ids.now), view, fault, first);
      var committed := runtime.EndRevision(tx, r.Done?);
      if r.Rendered? && fault.toast {
        r := Raised(Interrupted);
      }
    }

    /** The logs record the edited turn, run again from the replayed state before it, as the last
        turn of its chat. */
    ghost predicate TurnRevised(logs: map<string, Log>, table: Table, c: string, edit: Edit,
                                uploads: seq<UploadRequest>, choice: nat, changes: seq<FileChange>)
      reads runtime`logs
    {
      && Editable(table, c, edit.id)
      && var log, k := LogAt(logs, c), EditedIndex(table, edit.id);
         && 0 <= k < |log.entries|
         && Placed(runtime.sandbox, StartOf(runtime.agent.model, log.entries, k).trees, uploads) == Some(changes)
         && runtime.logs == logs[c := Answered(log, k, edit.id, edit.text, changes, choice)]
    }

    /** The chat owns the turn, the uploads fit before it and the agent answers from there. */
    ghost predicate Revisable(c: string, edit: Edit, uploads: seq<UploadRequest>, choice: nat, ids: Ids)
      reads runtime, runtime.history
    {
      && IsChatId(c) && Editable(runtime.history.table, c, edit.id)
      && runtime.CanRevise(c, EditedIndex(runtime.history.table, edit.id),
                           Rerun(FindTurn(runtime.history.table, edit.id).value.turn, edit.text,
                                 uploads, choice, ids.now))
    }

    /** A stored user message of this chat whose text the edit changes. */
    predicate Editing(c: string, edit: Edit)
      reads layer
    {
      && edit.id in layer.steps && layer.steps[edit.id].thread == c && layer.steps[edit.id].kind == "user_message"
      && Output(layer.steps[edit.id].columns) != Some(edit.text)
    }

    /** The UI tables and the logs hold the edit, and nothing of the superseded continuation is left. */
    twostate predicate Holds(c: string, edit: Edit, uploads: seq<UploadRequest>, choice: nat, changes: seq<FileChange>,
                             written: seq<StepWrite>)
      reads runtime`logs, layer
    {
      && old(Editing(c, edit)) && old(layer.Valid())
      && TurnRevised(old(runtime.logs), old(runtime.history.table), c, edit, uploads, choice, changes)
      && layer.Db() == Committing(old(layer.Db()), edit, written)
      && ChainlitData.Revised(old(layer.Db()), layer.Db(), edit.id, StepIds(written))
      && OnlyLaterGone(old(layer.Db()), layer.Db(), edit, StepIds(written))
    }

    /** Save the edit, which stages what it supersedes, and run the message again. */
    method StageAndRevise(c: string, edit: Edit, uploads: seq<UploadRequest>, choice: nat, ids: Ids,
                          view: TurnView, fault: EditFault, ghost first: Tables)
      returns (r: EditOutcome, ghost changes: seq<FileChange>)
      requires Valid() && runtime.FreshFor(c, ids) && Editing(c, edit)
      requires Undoable(first, edit.id) && OwnView(first, edit.id, view)
      modifies runtime`logs, runtime.agent.memory, runtime.sandbox, runtime.history, layer
      ensures Valid() && !r.Ignored?
      ensures !r.Revised? ==>
                runtime.logs == old(runtime.logs) && forall d :: runtime.ViewOf(d) == old(runtime.ViewOf(d))
      ensures r.Rejected? ==> unchanged(layer)
      ensures r.Failed? ==> Undone(first)
      ensures r.Failed? || r.Revised? ==> layer.archives == old(layer.archives) - {edit.id}
      ensures r.Revised? ==> Holds(c, edit, uploads, choice, changes, view.start + view.events + view.complete)
      ensures r.Revised? ==> runtime.Concluded(c, edit.id, edit.text, r.answer)
      ensures r.Revised? ==> forall d :: d != c ==> runtime.ViewOf(d) == old(runtime.ViewOf(d))
      ensures fault == NO_EDIT_FAULT && old(Revisable(c, edit, uploads, choice, ids)) ==> r.Revised?
    {
      hide Diverged, OwnView, runtime.Coherence, runtime.Concluded, EditOf, Truncated, WrittenAll, KeysOf, TurnRevised,
           DistinctOrders, ChainlitData.Revised, OnlyLaterGone, Updated, AllOwnSteps, Since, runtime.FreshFor;
      changes := [];
      OwnWritten(first, edit.id, view);
      CommitRevises(first, layer.Db(), edit, view.start + view.events + view.complete);
      CommitKeeps(first, layer.Db(), edit, view.start + view.events + view.complete);
      CommitForgets(layer.Db(), edit, view.start + view.events + view.complete);
      SinceArchives(first, layer.Db(), edit.id);
      EditDiverges(first, edit);
      var updated := layer.UpdateStep(EditOf(layer.Db(), edit), fault.update);
      if updated.Err? {
        return Rejected(updated.error), changes;
      }
      var handled;
      handled, changes := HandleRevision(c, edit, uploads, choice, ids, view, fault, first);
      if handled.Raised? {
        UndoEdit(edit.id, fault.blobs, first);
      }
      r := if handled.Done? then Revised(handled.answer) else Failed;
    }

    /** Edit a message. Context, files, turns and UI tables are all as before the edit, or all of them
        hold the revision. `first` is the UI state before the first uncommitted edit of this root: the
        present one, unless an older attempt was cut off between staging and its decision. */
    method OnEditMessage(c: string, edit: Option<Edit>, uploads: seq<UploadRequest>, choice: nat, ids: Ids,
                         view: TurnView, fault: EditFault, ghost first: Tables)
      returns (r: EditOutcome, ghost changes: seq<FileChange>)
      requires Valid() && runtime.FreshFor(c, ids)
      requires edit.Some? && Editing(c, edit.value) ==>
                 Undoable(first, edit.value.id) && OwnView(first, edit.value.id, view)
      modifies runtime`logs, runtime.agent.memory, runtime.sandbox, runtime.history, layer
      ensures Valid() && BlobsStored()
      ensures !r.Revised? ==>
                runtime.logs == old(runtime.logs) && forall d :: runtime.ViewOf(d) == old(runtime.ViewOf(d))
      ensures r.Ignored? || r.Rejected? ==> unchanged(layer)
      ensures r.Failed? ==> Undone(first)
      ensures r.Failed? || r.Revised? ==> edit.Some? && layer.archives == old(layer.archives) - {edit.value.id}
      ensures r.Revised? ==>
                edit.Some? && Holds(c, edit.value, uploads, choice, changes, view.start + view.events + view.complete)
      ensures r.Revised? ==> edit.Some? && runtime.Concluded(c, edit.value.id, edit.value.text, r.answer)
      ensures r.Revised? ==> forall d :: d != c ==> runtime.ViewOf(d) == old(runtime.ViewOf(d))
      ensures fault == NO_EDIT_FAULT && c !in deleting && edit.Some? && old(Editing(c, edit.value)) ==>
                old(Revisable(c, edit.value, uploads, choice, ids)) ==> r.Revised?
    {
      hide Undoable, OwnView, runtime.Coherence, runtime.Concluded, DistinctOrders, Holds, Undone, FindTurn,
           runtime.CanRevise, runtime.FreshFor, IsChatId;
      changes := [];
      SoundStores();
      if c in deleting {
        return Ignored, changes;
      }
      if edit.None? || fault.lookup {
        return Rejected(if edit.None? then Invalid else Interrupted), changes;
      }
      var root := edit.value.id;
      if root !in layer.steps || layer.steps[root].thread != c || layer.steps[root].kind != "user_message" {
        return Rejected(Invalid), changes;
      }
      if Output(layer.steps[root].columns) == Some(edit.value.text) || FindTurn(runtime.history.table, root).None? {
        return Ignored, changes;
      }
      r, changes := StageAndRevise(c, edit.value, uploads, choice, ids, view, fault, first);
      SoundStores();
    }

    /** Saving the edit stages it, or keeps the archive of an earlier attempt. */
    lemma EditDiverges(first: Tables, edit: Edit)
      requires edit.id in layer.steps && Undoable(first, edit.id)
      requires layer.steps[edit.id].kind == "user_message" && Output(layer.steps[edit.id].columns) != Some(edit.text)
      ensures Diverged(first, Updated(layer.Db(), EditOf(layer.Db(), edit)), edit.id)
      ensures DistinctOrders(layer.steps) ==> DistinctOrders(Updated(layer.Db(), EditOf(layer.Db(), edit)).steps)
    {
      hide Diverged, DistinctOrders;
      var t := layer.Db();
      if edit.id !in t.archives {
        StageDiverges(first, edit.id);
      }
      RootIsOwn(first, ChainlitData.Staged(t, edit.id), EditOf(t, edit));
      UpsertDiverges(first, ChainlitData.Staged(t, edit.id), edit.id, EditOf(t, edit));
      UpsertOrder(ChainlitData.Staged(t, edit.id), EditOf(t, edit));
    }
  }

  /** A tentative write keeps the orders of its thread apart. */
  lemma OwnKeepsOrder(first: Tables, t: Tables, root: string, w: StepWrite)
    requires Diverged(first, t, root) && OwnStep(first, root, w) && DistinctOrders(t.steps)
    ensures DistinctOrders(Upserted(t, w).steps)
  {
    UpsertTentative(first, t, root, w);
    UpsertOrder(t, w);
    hide Diverged, DistinctOrders, Upserted;
  }

  lemma TruncateKeepsOrder(t: Tables, root: string)
    requires HasRoot(t, root) && DistinctOrders(t.steps)
    ensures DistinctOrders(Truncated(t, root).steps)
  {
  }

  lemma NothingToUndo(first: Tables, root: string)
    requires root !in first.archives
    ensures Restored(first, root) == Ok(first)
  {
  }

  lemma RootIsOwn(first: Tables, t: Tables, w: StepWrite)
    requires Diverged(first, t, w.id) && w.thread == t.steps[w.id].thread
    ensures OwnStep(first, w.id, w)
  {
  }

  lemma OwnWritten(first: Tables, root: string, view: TurnView)
    requires OwnView(first, root, view)
    ensures AllOwnSteps(first, root, view.start + view.events + view.complete)
  {
  }
}
