/** The UI tables and their revision archive (chainlit_data.py): steps with a durable order,
    elements and feedback attached to steps, and per edited message an archive of the continuation
    that the edit supersedes. */
module ChainlitData {
  import opened Wrappers
  import Runs

  type Columns = map<string, string>

  datatype Step = Step(thread: string, kind: string, order: nat, columns: Columns)
  datatype Element = Element(forId: string, objectKey: Option<string>, columns: Columns)
  datatype Feedback = Feedback(forId: string, columns: Columns)

  /** The parameters of one step upsert; a payload can never carry a step order. */
  datatype StepWrite = StepWrite(id: string, thread: string, kind: string, columns: Columns)

  /** The rows of step_revisions, element_revisions and feedback_revisions for one root. */
  datatype Archive = Archive(steps: map<string, Step>, elements: map<string, Element>, feedbacks: map<string, Feedback>)

  datatype Tables = Tables(steps: map<string, Step>, elements: map<string, Element>,
                           feedbacks: map<string, Feedback>, archives: map<string, Archive>)

  function Output(columns: Columns): Option<string> {
    if "output" in columns then Some(columns["output"]) else None
  }

  // ---- Selections ------------------------------------------------------------------------

  /** Steps of a thread from an order on. */
  function Continuation(steps: map<string, Step>, thread: string, order: nat): set<string> {
    set id | id in steps && steps[id].thread == thread && steps[id].order >= order
  }

  function ElementsOf(elements: map<string, Element>, ids: set<string>): map<string, Element> {
    map e | e in elements && elements[e].forId in ids :: elements[e]
  }

  function FeedbacksOf(feedbacks: map<string, Feedback>, ids: set<string>): map<string, Feedback> {
    map f | f in feedbacks && feedbacks[f].forId in ids :: feedbacks[f]
  }

  function StepsOf(steps: map<string, Step>, ids: set<string>): map<string, Step> {
    map id | id in steps && id in ids :: steps[id]
  }

  lemma {:induction false} HasMax(s: set<nat>)
    requires s != {}
    ensures exists m :: m in s && forall x :: x in s ==> x <= m
  {
    var y :| y in s;
    var rest := s - {y};
    if rest == {} {
      assert s == {y};
    } else {
      HasMax(rest);
      var m :| m in rest && forall x :: x in rest ==> x <= m;
      assert forall x :: x in s ==> x == y || x in rest;
      assert (if m < y then y else m) in s;
    }
  }

  /** MAX("stepOrder") of a thread, or 0. */
  function MaxOrder(steps: map<string, Step>, thread: string): (max: nat)
    ensures forall id :: id in steps && steps[id].thread == thread ==> steps[id].order <= max
    ensures max == 0 || exists id :: id in steps && steps[id].thread == thread && steps[id].order == max
  {
    var orders := set id | id in steps && steps[id].thread == thread :: steps[id].order;
    assert forall id :: id in steps && steps[id].thread == thread ==> steps[id].order in orders;
    if orders == {} then 0
    else
      HasMax(orders);
      var max :| max in orders && forall x :: x in orders ==> x <= max;
      max
  }

  // ---- The transactions ------------------------------------------------------------------

  /** INSERT ... ON CONFLICT (id) DO UPDATE: a known step keeps its order, a new one goes last. */
  function Upserted(t: Tables, w: StepWrite): Tables {
    var step := if w.id in t.steps
                then Step(w.thread, w.kind, t.steps[w.id].order, t.steps[w.id].columns + w.columns)
                else Step(w.thread, w.kind, MaxOrder(t.steps, w.thread) + 1, w.columns);
    t.(steps := t.steps[w.id := step])
  }

  /** A write sets its thread, its kind and its columns; a known step keeps the columns it does not name. */
  lemma UpsertMerges(t: Tables, w: StepWrite)
    ensures var step := Upserted(t, w).steps[w.id];
            && step.thread == w.thread && step.kind == w.kind
            && (forall k :: k in w.columns ==> k in step.columns && step.columns[k] == w.columns[k])
            && (forall k :: k in step.columns && k !in w.columns ==>
                  w.id in t.steps && k in t.steps[w.id].columns && step.columns[k] == t.steps[w.id].columns[k])
            && (w.id in t.steps ==> t.steps[w.id].columns.Keys <= step.columns.Keys)
  {
  }

  function ArchiveOf(t: Tables, root: string): Archive
    requires root in t.steps
  {
    var ids := Continuation(t.steps, t.steps[root].thread, t.steps[root].order);
    Archive(StepsOf(t.steps, ids), ElementsOf(t.elements, ids), FeedbacksOf(t.feedbacks, ids))
  }

  /** Stage a root once; a later edit of the same root keeps the first archive. */
  function Staged(t: Tables, root: string): Tables
    requires root in t.steps
  {
    if root in t.archives then t else t.(archives := t.archives[root := ArchiveOf(t, root)])
  }

  /** Does saving this step supersede a continuation? */
  predicate Supersedes(t: Tables, w: StepWrite) {
    w.id in t.steps && t.steps[w.id].kind == "user_message" && Output(t.steps[w.id].columns) != Output(w.columns)
  }

  function Updated(t: Tables, w: StepWrite): Tables {
    Upserted(if Supersedes(t, w) then Staged(t, w.id) else t, w)
  }

  /** The archived row of the root itself. */
  ghost predicate HasRoot(t: Tables, root: string) {
    root in t.archives && root in t.archives[root].steps
  }

  /** Remove what the edit supersedes, keeping the edited step. */
  function Truncated(t: Tables, root: string): Tables
    requires HasRoot(t, root)
  {
    var row := t.archives[root].steps[root];
    var ids := Continuation(t.steps, row.thread, row.order + 1);
    t.(feedbacks := t.feedbacks - FeedbacksOf(t.feedbacks, ids).Keys,
       elements := t.elements - ElementsOf(t.elements, ids).Keys,
       steps := t.steps - ids)
  }

  function Committed(t: Tables, root: string): Tables {
    t.(archives := t.archives - {root})
  }

  /** Replace the current continuation by the archived one; an insert of a taken key aborts. */
  function Restored(t: Tables, root: string): Result<Tables>
    requires root in t.archives ==> HasRoot(t, root)
  {
    if root !in t.archives then Ok(t)
    else
      var a := t.archives[root];
      var ids := Continuation(t.steps, a.steps[root].thread, a.steps[root].order);
      var steps := t.steps - ids;
      var elements := t.elements - ElementsOf(t.elements, ids).Keys;
      var feedbacks := t.feedbacks - FeedbacksOf(t.feedbacks, ids).Keys;
      if a.steps.Keys !! steps.Keys && a.elements.Keys !! elements.Keys && a.feedbacks.Keys !! feedbacks.Keys
      then Ok(Tables(steps + a.steps, elements + a.elements, feedbacks + a.feedbacks, t.archives - {root}))
      else Err(Conflict)
  }

  // ---- Exact undo ------------------------------------------------------------------------

  /** The steps the edit of `root` may replace. */
  function Replaceable(first: Tables, root: string): set<string>
    requires root in first.steps
  {
    Continuation(first.steps, first.steps[root].thread, first.steps[root].order)
  }

  /** The current steps in the place of the replaceable ones. */
  function Tentative(first: Tables, t: Tables, root: string): set<string>
    requires root in first.steps
  {
    Continuation(t.steps, first.steps[root].thread, first.steps[root].order)
  }

  /** `t` differs from `first` only in the continuation of `root`, which is archived. */
  ghost predicate Diverged(first: Tables, t: Tables, root: string) {
    && root in first.steps && root !in first.archives
    && t.archives == first.archives[root := ArchiveOf(first, root)]
    && root in t.steps && t.steps[root].thread == first.steps[root].thread
    && t.steps[root].order == first.steps[root].order
    && var was := Replaceable(first, root);
       var now := Tentative(first, t, root);
       && StepsDiverged(first.steps, t.steps, was, now)
       && ElementsDiverged(first.elements, t.elements, was, now)
       && FeedbacksDiverged(first.feedbacks, t.feedbacks, was, now)
  }

  /** The steps outside the two continuations are the same rows. */
  ghost predicate StepsDiverged(a: map<string, Step>, b: map<string, Step>, was: set<string>, now: set<string>) {
    && (forall id :: id in a && id !in was ==> id in b && b[id] == a[id])
    && (forall id :: id in b && id !in now ==> id in a && id !in was)
  }

  /** The elements outside the two continuations are the same rows. */
  ghost predicate ElementsDiverged(a: map<string, Element>, b: map<string, Element>, was: set<string>,
                                   now: set<string>) {
    && (forall e :: e in a && a[e].forId !in was ==> e in b && b[e] == a[e] && b[e].forId !in now)
    && (forall e :: e in b && b[e].forId !in now ==> e in a && a[e].forId !in was)
  }

  ghost predicate FeedbacksDiverged(a: map<string, Feedback>, b: map<string, Feedback>, was: set<string>,
                                    now: set<string>) {
    && (forall f :: f in a && a[f].forId !in was ==> f in b && b[f] == a[f] && b[f].forId !in now)
    && (forall f :: f in b && b[f].forId !in now ==> f in a && a[f].forId !in was)
  }

  lemma UndoElements(a: map<string, Element>, b: map<string, Element>, was: set<string>, now: set<string>)
    requires ElementsDiverged(a, b, was, now)
    ensures ElementsOf(a, was).Keys !! (b - ElementsOf(b, now).Keys).Keys
    ensures (b - ElementsOf(b, now).Keys) + ElementsOf(a, was) == a
  {
    assert b - ElementsOf(b, now).Keys == a - ElementsOf(a, was).Keys;
  }

  lemma UndoFeedbacks(a: map<string, Feedback>, b: map<string, Feedback>, was: set<string>, now: set<string>)
    requires FeedbacksDiverged(a, b, was, now)
    ensures FeedbacksOf(a, was).Keys !! (b - FeedbacksOf(b, now).Keys).Keys
    ensures (b - FeedbacksOf(b, now).Keys) + FeedbacksOf(a, was) == a
  {
    assert b - FeedbacksOf(b, now).Keys == a - FeedbacksOf(a, was).Keys;
  }

  lemma UndoSteps(first: Tables, t: Tables, root: string)
    requires Diverged(first, t, root)
    ensures var kept := t.steps - Tentative(first, t, root);
            var archived := StepsOf(first.steps, Replaceable(first, root));
            archived.Keys !! kept.Keys && kept + archived == first.steps
  {
    hide ElementsDiverged, FeedbacksDiverged;
    assert t.steps - Tentative(first, t, root) == first.steps - Replaceable(first, root);
  }

  /** Restoring gives back exactly the tables before the first edit, and no insert can clash. */
  lemma ExactUndo(first: Tables, t: Tables, root: string)
    requires Diverged(first, t, root)
    ensures HasRoot(t, root) && Restored(t, root) == Ok(first)
  {
    hide ElementsDiverged, FeedbacksDiverged, StepsOf, ElementsOf, FeedbacksOf;
    var was, now := Replaceable(first, root), Tentative(first, t, root);
    ArchivesRoot(first, root);
    UndoSteps(first, t, root);
    UndoElements(first.elements, t.elements, was, now);
    UndoFeedbacks(first.feedbacks, t.feedbacks, was, now);
    assert t.archives - {root} == first.archives;
  }

  lemma ArchivesRoot(first: Tables, root: string)
    requires root in first.steps
    ensures root in ArchiveOf(first, root).steps && ArchiveOf(first, root).steps[root] == first.steps[root]
  {
  }

  lemma StageDiverges(first: Tables, root: string)
    requires root in first.steps && root !in first.archives
    ensures Diverged(first, Staged(first, root), root)
  {
  }

  /** A step write that belongs to the continuation of `root`: it names its thread and either a
      replaceable step or an identifier used nowhere else. */
  ghost predicate OwnStep(first: Tables, root: string, w: StepWrite) {
    && root in first.steps && w.thread == first.steps[root].thread
    && (w.id in Replaceable(first, root)
        || (&& w.id !in first.steps
            && (forall e :: e in first.elements ==> first.elements[e].forId != w.id)
            && (forall f :: f in first.feedbacks ==> first.feedbacks[f].forId != w.id)))
  }

  /** A tentative step stays in the continuation; a new one is appended to it. */
  lemma UpsertTentative(first: Tables, t: Tables, root: string, w: StepWrite)
    requires Diverged(first, t, root) && OwnStep(first, root, w)
    ensures Tentative(first, Upserted(t, w), root) == Tentative(first, t, root) + {w.id}
    ensures w.id in t.steps ==> w.id in Tentative(first, t, root)
    ensures forall id :: id in t.steps && id != w.id ==> Upserted(t, w).steps[id] == t.steps[id]
  {
    hide ElementsDiverged, FeedbacksDiverged, ArchiveOf;
    var now := Tentative(first, t, root);
    assert w.id in t.steps ==> w.id in now;
    assert t.steps[root].order <= MaxOrder(t.steps, w.thread);
  }

  lemma UpsertDiverges(first: Tables, t: Tables, root: string, w: StepWrite)
    requires Diverged(first, t, root) && OwnStep(first, root, w)
    ensures Diverged(first, Upserted(t, w), root)
  {
    hide ArchiveOf, MaxOrder, Tentative, Replaceable, Upserted;
    UpsertTentative(first, t, root, w);
    UpsertedOne(t, w);
  }

  lemma UpsertedOne(t: Tables, w: StepWrite)
    ensures Upserted(t, w).steps.Keys == t.steps.Keys + {w.id}
    ensures Upserted(t, w) == t.(steps := Upserted(t, w).steps)
    ensures w.id in t.steps ==> Upserted(t, w).steps[w.id].order == t.steps[w.id].order
    ensures Upserted(t, w).steps[w.id].thread == w.thread
  {
  }

  lemma TruncateDiverges(first: Tables, t: Tables, root: string)
    requires Diverged(first, t, root)
    ensures HasRoot(t, root) && Diverged(first, Truncated(t, root), root)
  {
    var now := Tentative(first, t, root);
    var ids := Continuation(t.steps, first.steps[root].thread, first.steps[root].order + 1);
    assert t.archives[root].steps[root] == first.steps[root];
    assert Tentative(first, Truncated(t, root), root) == now - ids;
  }

  /** An attachment of a tentative step, under a key that no kept row uses. */
  ghost predicate OwnElement(first: Tables, t: Tables, root: string, id: string, e: Element) {
    && root in first.steps && e.forId in Tentative(first, t, root)
    && (id in first.elements ==> first.elements[id].forId in Replaceable(first, root))
  }

  ghost predicate OwnFeedback(first: Tables, t: Tables, root: string, id: string, f: Feedback) {
    && root in first.steps && f.forId in Tentative(first, t, root)
    && (id in first.feedbacks ==> first.feedbacks[id].forId in Replaceable(first, root))
  }

  lemma AttachDiverges(first: Tables, t: Tables, root: string, id: string, e: Element)
    requires Diverged(first, t, root) && OwnElement(first, t, root, id, e)
    ensures Diverged(first, t.(elements := t.elements[id := e]), root)
  {
    hide FeedbacksDiverged;
  }

  lemma FeedbackDiverges(first: Tables, t: Tables, root: string, id: string, f: Feedback)
    requires Diverged(first, t, root) && OwnFeedback(first, t, root, id, f)
    ensures Diverged(first, t.(feedbacks := t.feedbacks[id := f]), root)
  {
    hide ElementsDiverged;
  }

  /** One write of a running turn. */
  datatype Write =
    | WriteStep(step: StepWrite)
    | WriteElement(id: string, element: Element)
    | WriteFeedback(id: string, feedback: Feedback)

  function Written(t: Tables, w: Write): Tables {
    match w
    case WriteStep(step) => Upserted(t, step)
    case WriteElement(id, e) => t.(elements := t.elements[id := e])
    case WriteFeedback(id, f) => t.(feedbacks := t.feedbacks[id := f])
  }

  ghost predicate Own(first: Tables, t: Tables, root: string, w: Write) {
    match w
    case WriteStep(step) => OwnStep(first, root, step)
    case WriteElement(id, e) => OwnElement(first, t, root, id, e)
    case WriteFeedback(id, f) => OwnFeedback(first, t, root, id, f)
  }

  function WrittenAll(t: Tables, ws: seq<Write>): Tables {
    if |ws| == 0 then t else Written(WrittenAll(t, ws[..|ws| - 1]), ws[|ws| - 1])
  }

  ghost predicate AllOwn(first: Tables, t: Tables, root: string, ws: seq<Write>) {
    forall i :: 0 <= i < |ws| ==> Own(first, WrittenAll(t, ws[..i]), root, ws[i])
  }

  lemma {:induction false} WritesDiverge(first: Tables, t: Tables, root: string, ws: seq<Write>)
    requires Diverged(first, t, root) && AllOwn(first, t, root, ws)
    ensures Diverged(first, WrittenAll(t, ws), root)
  {
    hide Diverged, OwnStep, OwnElement, OwnFeedback, Upserted;
    if |ws| == 0 {
    } else {
      var n := |ws| - 1;
      assert forall i :: 0 <= i < n ==> ws[..n][..i] == ws[..i];
      assert forall i :: 0 <= i < n ==> Own(first, WrittenAll(t, ws[..i]), root, ws[i]);
      WritesDiverge(first, t, root, ws[..n]);
      var u := WrittenAll(t, ws[..n]);
      match ws[n]
      case WriteStep(step) => UpsertDiverges(first, u, root, step);
      case WriteElement(id, e) => AttachDiverges(first, u, root, id, e);
      case WriteFeedback(id, f) => FeedbackDiverges(first, u, root, id, f);
    }
  }

  /** Save the edited message, truncate, write anything of one's own, restore: nothing has happened.
      The same holds before the truncation (`cut` false). */
  lemma EditThenRestore(first: Tables, edit: StepWrite, cut: bool, ws: seq<Write>)
    requires edit.id !in first.archives && Supersedes(first, edit) && edit.thread == first.steps[edit.id].thread
    requires HasRoot(Updated(first, edit), edit.id)
             && AllOwn(first, if cut then Truncated(Updated(first, edit), edit.id) else Updated(first, edit),
                       edit.id, ws)
    ensures var t := Updated(first, edit);
            var u := WrittenAll(if cut then Truncated(t, edit.id) else t, ws);
            HasRoot(u, edit.id) && Restored(u, edit.id) == Ok(first)
  {
    var root := edit.id;
    StageDiverges(first, root);
    UpsertDiverges(first, Staged(first, root), root, edit);
    var t := Updated(first, edit);
    if cut {
      TruncateDiverges(first, t, root);
      t := Truncated(t, root);
    }
    WritesDiverge(first, t, root, ws);
    ExactUndo(first, WrittenAll(t, ws), root);
  }

  // ---- Durable order ---------------------------------------------------------------------

  /** stepOrder is injective within a thread. */
  ghost predicate DistinctOrders(steps: map<string, Step>) {
    forall a, b :: a in steps && b in steps && a != b && steps[a].thread == steps[b].thread ==>
      steps[a].order != steps[b].order
  }

  ghost predicate ArchiveOk(a: Archive, root: string) {
    && root in a.steps && DistinctOrders(a.steps)
    && forall id :: id in a.steps ==>
         a.steps[id].thread == a.steps[root].thread && a.steps[id].order >= a.steps[root].order
  }

  ghost predicate OrderOk(t: Tables) {
    DistinctOrders(t.steps) && forall root :: root in t.archives ==> ArchiveOk(t.archives[root], root)
  }

  /** Every statement that touches the tables. A save stages the root first when it must. */
  datatype Op =
    | Create(step: StepWrite)
    | Save(step: StepWrite)
    | Attach(id: string, element: Element)
    | Rate(id: string, feedback: Feedback)
    | Truncate(root: string)
    | Commit(root: string)
    | Restore(root: string)

  /** A write that names another thread for a known step keeps its order, so it needs that order to be
      free there. Steps that stay in their thread always have this. */
  ghost predicate OrderFree(t: Tables, w: StepWrite) {
    w.id in t.steps ==>
      forall id :: id in t.steps && id != w.id && t.steps[id].thread == w.thread ==>
        t.steps[id].order != t.steps[w.id].order
  }

  ghost predicate Allowed(t: Tables, op: Op) {
    op.Create? || op.Save? ==> OrderFree(t, op.step)
  }

  /** A transaction that fails leaves the tables as they were. */
  ghost function Applied(t: Tables, op: Op): Tables {
    match op
    case Create(step) => Upserted(t, step)
    case Save(step) => Updated(t, step)
    case Attach(id, e) => t.(elements := t.elements[id := e])
    case Rate(id, f) => t.(feedbacks := t.feedbacks[id := f])
    case Truncate(root) => if HasRoot(t, root) then Truncated(t, root) else t
    case Commit(root) => Committed(t, root)
    case Restore(root) =>
      if HasRoot(t, root) && Restored(t, root).Ok? then Restored(t, root).value else t
  }

  /** A known step keeps its order; a new one comes after everything in its thread; and orders stay
      injective exactly if the write takes no order that is taken. */
  lemma UpsertOrder(t: Tables, w: StepWrite)
    ensures forall id :: id in t.steps ==>
              id in Upserted(t, w).steps && Upserted(t, w).steps[id].order == t.steps[id].order
    ensures w.id !in t.steps ==>
              forall id :: id in t.steps && t.steps[id].thread == w.thread ==>
                t.steps[id].order < Upserted(t, w).steps[w.id].order
    ensures DistinctOrders(t.steps) ==> (DistinctOrders(Upserted(t, w).steps) <==> OrderFree(t, w))
    ensures DistinctOrders(t.steps) && (w.id in t.steps ==> t.steps[w.id].thread == w.thread) ==> OrderFree(t, w)
  {
    var u := Upserted(t, w);
    if DistinctOrders(u.steps) && w.id in t.steps {
      forall id | id in t.steps && id != w.id && t.steps[id].thread == w.thread
        ensures t.steps[id].order != t.steps[w.id].order
      {
        assert u.steps[id].order != u.steps[w.id].order;
      }
    }
  }

  /** For example: a write that moves a step to another thread, where its order is taken. */
  lemma TakenOrderCollides()
    ensures var t := Upserted(Upserted(NO_TABLES, RunStep("x")), StepWrite("y", "u", "run", map[]));
            var w := StepWrite("x", "u", "run", map[]);
            OrderOk(t) && !OrderFree(t, w) && !DistinctOrders(Upserted(t, w).steps)
  {
    var one := Upserted(NO_TABLES, RunStep("x"));
    assert one.steps == map["x" := RunRow(1)];
    var t := Upserted(one, StepWrite("y", "u", "run", map[]));
    assert t.steps == map["x" := RunRow(1), "y" := Step("u", "run", 1, map[])];
    var u := Upserted(t, StepWrite("x", "u", "run", map[]));
    assert u.steps["x"].order == u.steps["y"].order && u.steps["x"].thread == u.steps["y"].thread;
    UpsertOrder(t, StepWrite("x", "u", "run", map[]));
  }

  lemma StageKeepsOrder(t: Tables, root: string)
    requires OrderOk(t) && root in t.steps
    ensures OrderOk(Staged(t, root))
  {
  }

  lemma RestoreKeepsOrder(t: Tables, root: string)
    requires OrderOk(t) && HasRoot(t, root) && Restored(t, root).Ok?
    ensures OrderOk(Restored(t, root).value)
  {
    var a := t.archives[root];
    var t' := Restored(t, root).value;
    assert ArchiveOk(a, root);
    forall x, y | x in t'.steps && y in t'.steps && x != y && t'.steps[x].thread == t'.steps[y].thread
      ensures t'.steps[x].order != t'.steps[y].order
    {
      if x !in a.steps && y !in a.steps {
        assert t'.steps[x] == t.steps[x] && t'.steps[y] == t.steps[y];
      }
    }
  }

  lemma OpKeepsOrder(t: Tables, op: Op)
    requires OrderOk(t)
    ensures OrderOk(Applied(t, op)) <==> Allowed(t, op)
  {
    match op
    case Create(step) => UpsertOrder(t, step);
    case Save(step) =>
      if Supersedes(t, step) {
        StageKeepsOrder(t, step.id);
        UpsertOrder(Staged(t, step.id), step);
      } else {
        UpsertOrder(t, step);
      }
    case Restore(root) =>
      if HasRoot(t, root) && Restored(t, root).Ok? {
        RestoreKeepsOrder(t, root);
      }
    case Attach(_, _) =>
    case Rate(_, _) =>
    case Truncate(_) =>
    case Commit(_) =>
  }

  const NO_TABLES := Tables(map[], map[], map[], map[])

  lemma {:induction false} OrderKept(ops: seq<Op>)
    requires Runs.IsRun(NO_TABLES, Allowed, Applied, ops)
    ensures OrderOk(Runs.After(NO_TABLES, Applied, ops))
  {
    if |ops| == 0 {
    } else {
      var n := |ops| - 1;
      Runs.Last(NO_TABLES, Allowed, Applied, ops);
      OrderKept(ops[..n]);
      OpKeepsOrder(Runs.After(NO_TABLES, Applied, ops[..n]), ops[n]);
    }
  }

  /** Whatever is executed, in whatever order: orders stay injective per thread, live and archived, for
      the whole time if and only if no write moves a step onto a taken order. */
  lemma OrderOverRuns(ops: seq<Op>)
    ensures (forall i :: 0 <= i <= |ops| ==> OrderOk(Runs.After(NO_TABLES, Applied, ops[..i])))
            <==> Runs.IsRun(NO_TABLES, Allowed, Applied, ops)
  {
    hide Applied, Allowed, OrderOk;
    if Runs.IsRun(NO_TABLES, Allowed, Applied, ops) {
      forall i | 0 <= i <= |ops| ensures OrderOk(Runs.After(NO_TABLES, Applied, ops[..i])) {
        Runs.Prefix(NO_TABLES, Allowed, Applied, ops, i);
        OrderKept(ops[..i]);
      }
    }
    if forall i :: 0 <= i <= |ops| ==> OrderOk(Runs.After(NO_TABLES, Applied, ops[..i])) {
      forall i | 0 <= i < |ops| ensures Allowed(Runs.After(NO_TABLES, Applied, ops[..i]), ops[i]) {
        assert ops[..i + 1] == ops[..i] + [ops[i]];
        Runs.Then(NO_TABLES, Applied, ops[..i], ops[i]);
        OpKeepsOrder(Runs.After(NO_TABLES, Applied, ops[..i]), ops[i]);
      }
    }
  }

  // ---- An order for life -----------------------------------------------------------------

  /** The step is live, and every archive that holds it has it at its live order. */
  ghost predicate Agrees(t: Tables, id: string) {
    id in t.steps && forall root :: root in t.archives && id in t.archives[root].steps ==>
      t.archives[root].steps[id].order == t.steps[id].order
  }

  lemma OpKeepsAgreement(t: Tables, op: Op, id: string)
    requires Agrees(t, id) && id in Applied(t, op).steps
    ensures Agrees(Applied(t, op), id) && Applied(t, op).steps[id].order == t.steps[id].order
  {
  }

  /** A step that agrees with its archives keeps its order for as long as it lives, through every
      operation, restores included. */
  lemma {:induction false} OrderForLife(ops: seq<Op>, i: nat, id: string)
    requires i <= |ops| && Agrees(Runs.After(NO_TABLES, Applied, ops[..i]), id)
    requires forall k :: i <= k <= |ops| ==> id in Runs.After(NO_TABLES, Applied, ops[..k]).steps
    ensures Agrees(Runs.After(NO_TABLES, Applied, ops), id)
    ensures Runs.After(NO_TABLES, Applied, ops).steps[id].order
      == Runs.After(NO_TABLES, Applied, ops[..i]).steps[id].order
  {
    hide Applied, Agrees;
    assert ops[..|ops|] == ops;
    if i == |ops| {
    } else {
      var n := |ops| - 1;
      assert ops == ops[..n] + [ops[n]];
      Runs.Then(NO_TABLES, Applied, ops[..n], ops[n]);
      assert forall k :: i <= k <= n ==> ops[..n][..k] == ops[..k];
      OrderForLife(ops[..n], i, id);
      OpKeepsAgreement(Runs.After(NO_TABLES, Applied, ops[..n]), ops[n], id);
    }
  }

  /** So a step created under an identifier that no archive holds keeps the order it gets. */
  lemma FreshIdForLife(ops: seq<Op>, i: nat, w: StepWrite)
    requires i < |ops| && ops[i] == Create(w)
    requires var t := Runs.After(NO_TABLES, Applied, ops[..i]);
             forall root :: root in t.archives ==> w.id !in t.archives[root].steps
    requires forall k :: i < k <= |ops| ==> w.id in Runs.After(NO_TABLES, Applied, ops[..k]).steps
    ensures forall k :: i < k <= |ops| ==>
              Runs.After(NO_TABLES, Applied, ops[..k]).steps[w.id].order
              == Upserted(Runs.After(NO_TABLES, Applied, ops[..i]), w).steps[w.id].order
  {
    var t := Runs.After(NO_TABLES, Applied, ops[..i]);
    assert ops[..i + 1] == ops[..i] + [ops[i]];
    Runs.Then(NO_TABLES, Applied, ops[..i], ops[i]);
    assert Agrees(Upserted(t, w), w.id);
    hide Applied, Agrees;
    forall k | i < k <= |ops|
      ensures Runs.After(NO_TABLES, Applied, ops[..k]).steps[w.id].order == Upserted(t, w).steps[w.id].order
    {
      assert forall j :: 0 <= j <= k ==> ops[..k][..j] == ops[..j];
      OrderForLife(ops[..k], i + 1, w.id);
    }
  }

  /** The agreement is exact: a restore that succeeds keeps the order of a step that lives on if and
      only if its archive agrees, and moves it to the archived order otherwise. */
  lemma RestoreMovesIff(t: Tables, root: string, id: string)
    requires HasRoot(t, root) && Restored(t, root).Ok? && id in t.steps && id in Restored(t, root).value.steps
    ensures Restored(t, root).value.steps[id].order == t.steps[id].order
            <==> (id in t.archives[root].steps ==> t.archives[root].steps[id].order == t.steps[id].order)
    ensures id in t.archives[root].steps ==> Restored(t, root).value.steps[id] == t.archives[root].steps[id]
  {
  }

  // An identifier that is used again: "x" is superseded by the edit of "r" and then written anew.
  const ROOT := StepWrite("r", "t", "user_message", map["output" := "one"])
  const EDITED := StepWrite("r", "t", "user_message", map["output" := "two"])

  function RunStep(id: string): StepWrite {
    StepWrite(id, "t", "run", map[])
  }

  function RunRow(order: nat): Step {
    Step("t", "run", order, map[])
  }

  const R1 := Step("t", "user_message", 1, ROOT.columns)
  const R2 := Step("t", "user_message", 1, EDITED.columns)
  const WRITTEN := map["r" := R1, "x" := RunRow(2), "y" := RunRow(3)]
  const ARCHIVED := map["r" := Archive(WRITTEN, map[], map[])]
  const REUSED := Tables(map["r" := R2, "z" := RunRow(2), "x" := RunRow(3)], map[], map[], ARCHIVED)

  lemma WriteThree()
    ensures var t := Upserted(Upserted(Upserted(NO_TABLES, ROOT), RunStep("x")), RunStep("y"));
            t == Tables(WRITTEN, map[], map[], map[])
  {
    var t1 := Upserted(NO_TABLES, ROOT);
    assert t1 == Tables(map["r" := R1], map[], map[], map[]);
    NextOrder(t1, "r");
    var t2 := Upserted(t1, RunStep("x"));
    assert t2 == Tables(map["r" := R1, "x" := RunRow(2)], map[], map[], map[]);
    NextOrder(t2, "x");
  }

  /** The last step of a thread tells its greatest order. */
  lemma NextOrder(t: Tables, last: string)
    requires last in t.steps && forall id :: id in t.steps ==>
               t.steps[id].thread == "t" && t.steps[id].order <= t.steps[last].order
    ensures MaxOrder(t.steps, "t") == t.steps[last].order
  {
  }

  const SAVED := Tables(WRITTEN["r" := R2], map[], map[], ARCHIVED)

  lemma SaveEdit()
    ensures Updated(Tables(WRITTEN, map[], map[], map[]), EDITED) == SAVED
  {
    var t := Tables(WRITTEN, map[], map[], map[]);
    assert ArchiveOf(t, "r") == Archive(WRITTEN, map[], map[]) by {
      assert Continuation(WRITTEN, "t", 1) == {"r", "x", "y"};
      assert StepsOf(WRITTEN, {"r", "x", "y"}) == WRITTEN;
    }
    hide ArchiveOf;
    assert R1.columns + EDITED.columns == EDITED.columns;
    assert Supersedes(t, EDITED) && Staged(t, "r") == t.(archives := ARCHIVED);
  }

  lemma CutEdit()
    ensures Applied(SAVED, Truncate("r")) == Tables(map["r" := R2], map[], map[], ARCHIVED)
  {
    assert HasRoot(SAVED, "r");
    assert Continuation(SAVED.steps, "t", 2) == {"x", "y"};
    assert SAVED.steps - {"x", "y"} == map["r" := R2];
  }

  lemma WriteAgain(t: Tables)
    requires t == Tables(map["r" := R2], map[], map[], ARCHIVED)
    ensures Upserted(Upserted(t, RunStep("z")), RunStep("x")) == REUSED
  {
    NextOrder(t, "r");
    var u := Upserted(t, RunStep("z"));
    assert u.steps == map["r" := R2, "z" := RunRow(2)];
    NextOrder(u, "z");
  }

  /** Reusing an identifier that an archive holds is what breaks an order: the new "x" lives at 3, and
      restoring the edit moves it to 2 while it lives. */
  lemma ReusedIdMoves()
    ensures var before := [Create(ROOT), Create(RunStep("x")), Create(RunStep("y")), Save(EDITED), Truncate("r"),
                           Create(RunStep("z")), Create(RunStep("x"))];
            var t := Runs.After(NO_TABLES, Applied, before);
            var u := Runs.After(NO_TABLES, Applied, before + [Restore("r")]);
            "x" in t.steps && t.steps["x"].order == 3 && "x" in u.steps && u.steps["x"].order == 2
  {
    WriteThree();
    SaveEdit();
    CutEdit();
    WriteAgain(Tables(map["r" := R2], map[], map[], ARCHIVED));
    var a, b, c := Create(ROOT), Create(RunStep("x")), Create(RunStep("y"));
    var d, e, f, g := Save(EDITED), Truncate("r"), Create(RunStep("z")), Create(RunStep("x"));
    Runs.Three(NO_TABLES, Applied, a, b, c);
    Runs.Then(NO_TABLES, Applied, [a, b, c], d);
    Runs.Then(NO_TABLES, Applied, [a, b, c] + [d], e);
    Runs.Then(NO_TABLES, Applied, [a, b, c] + [d] + [e], f);
    Runs.Then(NO_TABLES, Applied, [a, b, c] + [d] + [e] + [f], g);
    assert [a, b, c] + [d] + [e] + [f] + [g] == [a, b, c, d, e, f, g];
    Runs.Then(NO_TABLES, Applied, [a, b, c, d, e, f, g], Restore("r"));
    RestoresOld();
    hide Upserted, Updated, Truncated;
  }

  lemma RestoresOld()
    ensures "x" in Applied(REUSED, Restore("r")).steps && Applied(REUSED, Restore("r")).steps["x"].order == 2
  {
    assert Continuation(REUSED.steps, "t", 1) == {"r", "z", "x"};
    assert REUSED.steps - {"r", "z", "x"} == map[];
  }

  // ---- The shape of a committed revision ---------------------------------------------------

  /** The thread holds the old prefix, the edited root in its old place and, after it, exactly the
      newly written steps; every other thread is untouched. */
  ghost predicate Revised(before: Tables, t: Tables, root: string, written: set<string>) {
    && root in before.steps && root in t.steps
    && t.steps.Keys == before.steps.Keys - Replaceable(before, root) + {root} + written
    && t.steps[root].thread == before.steps[root].thread && t.steps[root].order == before.steps[root].order
    && (forall id :: id in before.steps && id !in Replaceable(before, root) ==>
           id in t.steps && t.steps[id] == before.steps[id])
    && (forall id :: id in written && id != root ==>
                       id in t.steps && t.steps[id].thread == before.steps[root].thread
                       && t.steps[id].order > before.steps[root].order)
  }

  /** The archived root still stands where the live one does. */
  ghost predicate RootInPlace(t: Tables, root: string) {
    && HasRoot(t, root) && root in t.steps
    && t.archives[root].steps[root].thread == t.steps[root].thread
    && t.archives[root].steps[root].order == t.steps[root].order
  }

  /** Staging keeps the root of an older archive in place, and saving the edit moves nothing. */
  lemma UpdatedRoot(before: Tables, edit: StepWrite)
    requires Supersedes(before, edit) && edit.thread == before.steps[edit.id].thread
    requires edit.id in before.archives ==> RootInPlace(before, edit.id)
    ensures var t := Updated(before, edit);
            && RootInPlace(t, edit.id) && t.steps == before.steps[edit.id := t.steps[edit.id]]
            && t.steps[edit.id].thread == before.steps[edit.id].thread
            && t.steps[edit.id].order == before.steps[edit.id].order
  {
    ArchivesRoot(before, edit.id);
  }

  lemma TruncateRevises(before: Tables, edit: StepWrite)
    requires DistinctOrders(before.steps) && Supersedes(before, edit) && edit.thread == before.steps[edit.id].thread
    requires edit.id in before.archives ==> RootInPlace(before, edit.id)
    ensures var t := Updated(before, edit);
            HasRoot(t, edit.id) && Revised(before, Truncated(t, edit.id), edit.id, {})
  {
    var root := edit.id;
    var t := Updated(before, edit);
    UpdatedRoot(before, edit);
    CutAfterRoot(before.steps, t.steps, root);
    var cut := Continuation(t.steps, before.steps[root].thread, before.steps[root].order + 1);
    hide Updated, Supersedes, Staged, ArchiveOf, Continuation, DistinctOrders;
    assert Truncated(t, root).steps == t.steps - cut;
  }

  /** With injective orders, what follows the root is its continuation without the root itself. */
  lemma CutAfterRoot(before: map<string, Step>, after: map<string, Step>, root: string)
    requires DistinctOrders(before) && root in before && root in after && after == before[root := after[root]]
    requires after[root].thread == before[root].thread && after[root].order == before[root].order
    ensures Continuation(after, before[root].thread, before[root].order + 1)
            == Continuation(before, before[root].thread, before[root].order) - {root}
  {
  }

  lemma UpsertRevises(before: Tables, t: Tables, root: string, written: set<string>, w: StepWrite)
    requires Revised(before, t, root, written) && w.thread == before.steps[root].thread
    requires w.id in before.steps ==> w.id in Replaceable(before, root)
    ensures Revised(before, Upserted(t, w), root, written + {w.id})
  {
    var t' := Upserted(t, w);
    assert t'.steps.Keys == t.steps.Keys + {w.id};
  }
}
