/** The data layer that owns the UI tables and the stored blobs (chainlit_data.py). Every method is
    one transaction; its statements run in order on the tables and `Db()` is their joint value. */
module DataLayer {
  import opened Wrappers
  import opened ChainlitData

  /** Post-decision blob cleanup is best effort: some deletions fail, one may be interrupted. */
  datatype BlobFault = BlobFault(failing: set<string>, interrupted: Option<string>)

  const NO_BLOB_FAULT := BlobFault({}, None)

  function KeysOf(elements: map<string, Element>): set<string> {
    set e | e in elements && elements[e].objectKey.Some? :: elements[e].objectKey.value
  }

  /** The blobs that some element names. */
  lemma KeysOfAre(elements: map<string, Element>)
    ensures forall e :: e in elements && elements[e].objectKey.Some? ==>
              elements[e].objectKey.value in KeysOf(elements)
    ensures forall key :: key in KeysOf(elements) ==>
              exists e :: e in elements && elements[e].objectKey == Some(key)
  {
  }

  lemma KeysOfMerge(a: map<string, Element>, b: map<string, Element>)
    requires a.Keys !! b.Keys
    ensures KeysOf(a + b) == KeysOf(a) + KeysOf(b)
  {
    forall e | e in a ensures (a + b)[e] == a[e] {
      assert e !in b.Keys;
    }
    forall key | key in KeysOf(a) + KeysOf(b) ensures key in KeysOf(a + b) {
      var e :| (e in a && a[e].objectKey == Some(key)) || (e in b && b[e].objectKey == Some(key));
      assert e in a + b;
    }
  }

  class SQLiteChainlitDataLayer {
    const hasStorage: bool
    var steps: map<string, Step>
    var elements: map<string, Element>
    var feedbacks: map<string, Feedback>
    var archives: map<string, Archive>
    var blobs: set<string>

    constructor (hasStorage: bool)
      ensures this.hasStorage == hasStorage && Db() == NO_TABLES && blobs == {} && Sound()
    {
      this.hasStorage := hasStorage;
      steps, elements, feedbacks, archives, blobs := map[], map[], map[], map[], {};
    }

    function Db(): Tables
      reads this
    {
      Tables(steps, elements, feedbacks, archives)
    }

    /** Every archive holds the row of its own root. */
    ghost predicate Valid()
      reads this
    {
      forall root :: root in archives ==> root in archives[root].steps
    }

    /** Moreover, step orders are injective per thread, and the blobs of all live elements are stored. */
    ghost predicate Sound()
      reads this
    {
      Valid() && DistinctOrders(steps) && KeysOf(elements) <= blobs
    }

    method UpsertStep(w: StepWrite)
      modifies this`steps
      ensures Db() == Upserted(old(Db()), w)
    {
      if w.id in steps {
        steps := steps[w.id := Step(w.thread, w.kind, steps[w.id].order, steps[w.id].columns + w.columns)];
      } else {
        steps := steps[w.id := Step(w.thread, w.kind, MaxOrder(steps, w.thread) + 1, w.columns)];
      }
    }

    /** Copy the continuation that starts at `root` into the archive tables, unless it is there. */
    method StageRevision(root: string)
      requires root in steps
      modifies this`archives
      ensures Db() == Staged(old(Db()), root)
    {
      if root in archives {
        return;
      }
      var at := steps[root];
      var rows := StepsOf(steps, Continuation(steps, at.thread, at.order));
      var attached := ElementsOf(elements, rows.Keys);
      var rated := FeedbacksOf(feedbacks, rows.Keys);
      assert rows.Keys == Continuation(steps, at.thread, at.order);
      archives := archives[root := Archive(rows, attached, rated)];
    }

    method CreateStep(w: StepWrite, fault: bool) returns (r: Result<()>)
      requires Valid()
      modifies this`steps
      ensures Valid()
      ensures r.Ok? <==> !fault
      ensures Db() == if r.Ok? then Upserted(old(Db()), w) else old(Db())
    {
      if fault {
        return Err(Interrupted);
      }
      UpsertStep(w);
      return Ok(());
    }

    /** A stored user message that gets another text, its first one, or none. */
    predicate ChangesText(w: StepWrite)
      reads this
    {
      && w.id in steps && steps[w.id].kind == "user_message"
      && if "output" in w.columns && "output" in steps[w.id].columns
         then w.columns["output"] != steps[w.id].columns["output"]
         else "output" in w.columns || "output" in steps[w.id].columns
    }

    /** Save a step; a user message whose text changes is staged first, in the same transaction. */
    method UpdateStep(w: StepWrite, fault: bool) returns (r: Result<()>)
      requires Valid()
      modifies this`steps, this`archives
      ensures Valid()
      ensures r.Ok? <==> !fault
      ensures Db() == if r.Ok? then Updated(old(Db()), w) else old(Db())
      ensures r.Ok? ==> (w.id in archives <==> w.id in old(archives) || old(ChangesText(w)))
    {
      if fault {
        return Err(Interrupted);
      }
      if Supersedes(Db(), w) {
        ArchivesRoot(Db(), w.id);
        StageRevision(w.id);
      }
      UpsertStep(w);
      return Ok(());
    }

    /** Has an edit of this root been staged? */
    predicate IsStaged(root: string)
      reads this`archives
    {
      root in archives
    }

    /** A later step of the thread of this archived root. */
    ghost predicate Follows(root: string, id: string)
      reads this
      requires HasRoot(Db(), root)
    {
      && id in steps && steps[id].thread == archives[root].steps[root].thread
      && steps[id].order > archives[root].steps[root].order
    }

    /** Keep the edited step and remove every superseded descendant, children first. */
    method Truncate(root: string, fault: bool) returns (r: Result<()>)
      requires Valid()
      modifies this`steps, this`elements, this`feedbacks
      ensures Valid()
      ensures r.Ok? <==> !fault && root in archives
      ensures Db() == if r.Ok? then Truncated(old(Db()), root) else old(Db())
      ensures KeysOf(elements) <= KeysOf(old(elements))
      ensures r.Ok? ==>
                && (forall id :: id in steps <==> id in old(steps) && !old(Follows(root, id)))
                && (forall e :: e in elements <==> e in old(elements) && !old(Follows(root, elements[e].forId)))
                && (forall f :: f in feedbacks <==> f in old(feedbacks) && !old(Follows(root, feedbacks[f].forId)))
    {
      if fault || root !in archives {
        return Err(if fault then Interrupted else NotFound);
      }
      var at := archives[root].steps[root];
      feedbacks := feedbacks - FeedbacksOf(feedbacks, Continuation(steps, at.thread, at.order + 1)).Keys;
      elements := elements - ElementsOf(elements, Continuation(steps, at.thread, at.order + 1)).Keys;
      steps := steps - Continuation(steps, at.thread, at.order + 1);
      return Ok(());
    }

    /** Forget the archive of `root`; then drop the blobs that no live element refers to. */
    method Commit(root: string, fault: bool, blobFault: BlobFault) returns (r: Result<()>)
      requires Valid()
      modifies this`archives, this`blobs
      ensures Valid()
      ensures r.Ok? <==> !fault
      ensures Db() == if r.Ok? then Committed(old(Db()), root) else old(Db())
      ensures r.Err? ==> blobs == old(blobs)
      ensures blobs <= old(blobs) && old(blobs) * KeysOf(elements) <= blobs
      ensures r.Ok? && hasStorage && blobFault == NO_BLOB_FAULT && root in old(archives)
              ==> blobs == old(blobs) - (KeysOf(old(archives)[root].elements) - KeysOf(elements))
    {
      if fault {
        return Err(Interrupted);
      }
      var keys := if root in archives then KeysOf(archives[root].elements) else {};
      archives := archives - {root};
      DeleteUnreferencedBlobs(keys, blobFault);
      return Ok(());
    }

    /** Put the archived continuation back in the place of the current one. Afterwards all live blobs
        are stored exactly if those of the kept and of the archived elements were: another root's
        commit may have dropped a blob that only the archive still named. */
    method Restore(root: string, blobFault: BlobFault) returns (r: Result<()>)
      requires Valid()
      modifies this
      ensures Valid()
      ensures r.Ok? <==> Restored(old(Db()), root).Ok?
      ensures Db() == if r.Ok? then Restored(old(Db()), root).value else old(Db())
      ensures blobs <= old(blobs) && old(blobs) * KeysOf(elements) <= blobs
      ensures root !in old(archives) ==> r.Ok? && blobs == old(blobs)
      ensures root in old(archives) && r.Ok? ==>
                var at := old(archives)[root].steps[root];
                var ids := Continuation(old(steps), at.thread, at.order);
                var kept := old(elements) - ElementsOf(old(elements), ids).Keys;
                KeysOf(elements) <= blobs <==> KeysOf(kept) + KeysOf(old(archives)[root].elements) <= old(blobs)
      ensures root in old(archives) && r.Ok? && hasStorage && blobFault == NO_BLOB_FAULT ==>
                var at := old(archives)[root].steps[root];
                var removed := ElementsOf(old(elements), Continuation(old(steps), at.thread, at.order));
                blobs == old(blobs) - (KeysOf(removed) - KeysOf(elements))
    {
      hide Continuation, ElementsOf, FeedbacksOf, KeysOf;
      if root !in archives {
        return Ok(());
      }
      var begun := (steps, elements, feedbacks);
      var a := archives[root];
      var at := a.steps[root];
      var keys := KeysOf(ElementsOf(elements, Continuation(steps, at.thread, at.order)));
      feedbacks := feedbacks - FeedbacksOf(feedbacks, Continuation(steps, at.thread, at.order)).Keys;
      elements := elements - ElementsOf(elements, Continuation(steps, at.thread, at.order)).Keys;
      steps := steps - Continuation(steps, at.thread, at.order);
      if a.steps.Keys !! steps.Keys && a.elements.Keys !! elements.Keys && a.feedbacks.Keys !! feedbacks.Keys {
        steps := steps + a.steps;
        KeysOfMerge(elements, a.elements);
        elements := elements + a.elements;
        feedbacks := feedbacks + a.feedbacks;
        archives := archives - {root};
        DeleteUnreferencedBlobs(keys, blobFault);
        return Ok(());
      }
      steps, elements, feedbacks := begun.0, begun.1, begun.2;
      return Err(Conflict);
    }

    /** Delete each of these blobs unless a live element refers to it. */
    method DeleteUnreferencedBlobs(keys: set<string>, fault: BlobFault)
      modifies this`blobs
      ensures blobs <= old(blobs) && old(blobs) - blobs <= keys - KeysOf(elements)
      ensures hasStorage && fault == NO_BLOB_FAULT ==> blobs == old(blobs) - (keys - KeysOf(elements))
    {
      if !hasStorage {
        return;
      }
      var rest := keys;
      while rest != {}
        invariant rest <= keys && blobs <= old(blobs) && old(blobs) - blobs <= keys - KeysOf(elements)
        invariant fault == NO_BLOB_FAULT ==> blobs == old(blobs) - (keys - rest - KeysOf(elements))
        decreases rest
      {
        var key :| key in rest;
        rest := rest - {key};
        if fault.interrupted == Some(key) {
          return;
        }
        if key !in fault.failing && key !in KeysOf(elements) {
          blobs := blobs - {key};
        }
      }
    }
  }
}
