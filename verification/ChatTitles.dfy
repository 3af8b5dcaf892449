/** The title of a chat (chainlit_data.py): initial names, automatic title attempts and manual renames
    of one thread, serialized by its lock, in any order. */
module ChatTitles {
  import opened Wrappers
  import Runs

  const DEFAULT_TITLE := "Новый диалог"
  const PENDING := "pending"
  const GENERATED := "generated"
  const FALLBACK := "fallback"
  const MANUAL := "manual"

  /** The name of a thread and the title state in its metadata. */
  datatype Row = Row(name: Option<string>, state: Option<string>)

  /** What a metadata argument does to the title state; the base class merges metadata key by key. */
  datatype KeyWrite = Keep | Put(state: string) | Remove

  datatype Op =
    | Update(name: Option<string>, user: bool, key: KeyWrite)
    | Begin
    | Complete(title: string, fallback: bool)

  const NO_ROW := Row(None, None)

  /** The base class writes a name if there is one and merges the metadata. */
  function Merged(row: Row, name: Option<string>, key: KeyWrite): Row {
    Row(if name.Some? then name else row.name,
        match key
        case Keep => row.state
        case Put(state) => Some(state)
        case Remove => None)
  }

  predicate Named(state: Option<string>) {
    state == Some(GENERATED) || state == Some(FALLBACK) || state == Some(MANUAL)
  }

  /** Chainlit's first-interaction event: it names the thread and its user. */
  predicate Initial(op: Op) {
    op.Update? && op.name.Some? && op.user
  }

  predicate ManualRename(op: Op) {
    op.Update? && op.name.Some? && !op.user
  }

  function Next(row: Row, op: Op): Row {
    match op
    case Update(name, user, key) =>
      if Initial(op) && Named(row.state) then Merged(row, None, key)
      else if Initial(op) then Merged(row, Some(DEFAULT_TITLE), Put(PENDING))
      else if ManualRename(op) then Merged(row, name, Put(MANUAL))
      else Merged(row, None, key)
    case Begin =>
      if row.state.None? then Row(Some(DEFAULT_TITLE), Some(PENDING))
      else if row.state == Some(FALLBACK) then row.(state := Some(PENDING))
      else row
    case Complete(title, fallback) =>
      if row.state == Some(PENDING) then Row(Some(title), Some(if fallback then FALLBACK else GENERATED)) else row
  }

  class Thread {
    var name: Option<string>
    var state: Option<string>

    constructor ()
      ensures Value() == NO_ROW
    {
      name, state := None, None;
    }

    function Value(): Row
      reads this
    {
      Row(name, state)
    }

    method Write(newName: Option<string>, key: KeyWrite)
      modifies this
      ensures Value() == Merged(old(Value()), newName, key)
    {
      if newName.Some? {
        name := newName;
      }
      match key {
        case Keep =>
        case Put(s) => state := Some(s);
        case Remove => state := None;
      }
    }

    /** Claim an unnamed chat for automatic title generation. */
    method BeginChatTitle() returns (claimed: bool)
      modifies this
      ensures Value() == Next(old(Value()), Begin)
      ensures claimed <==> Value().state == Some(PENDING)
      ensures claimed <==> old(state) in {None, Some("pending"), Some("fallback")}
      ensures claimed ==> state == Some("pending")
      ensures name == if old(state).None? then Some("Новый диалог") else old(name)
    {
      if state == Some(PENDING) {
        return true;
      }
      if state == Some(FALLBACK) {
        Write(None, Put(PENDING));
        return true;
      }
      if state.Some? {
        return false;
      }
      Write(Some(DEFAULT_TITLE), Put(PENDING));
      return true;
    }

    /** Apply an automatic title only while the placeholder is untouched. */
    method CompleteChatTitle(title: string, fallback: bool) returns (applied: bool)
      modifies this
      ensures Value() == Next(old(Value()), Complete(title, fallback))
      ensures applied <==> old(Value()).state == Some(PENDING)
      ensures applied ==> name == Some(title) && state == Some(if fallback then "fallback" else "generated")
    {
      if state != Some(PENDING) {
        return false;
      }
      Write(Some(title), Put(if fallback then FALLBACK else GENERATED));
      return true;
    }

    method UpdateThread(newName: Option<string>, user: bool, key: KeyWrite)
      modifies this
      ensures Value() == Next(old(Value()), Update(newName, user, key))
      ensures newName.Some? && user && old(state) in {Some("generated"), Some("fallback"), Some("manual")} ==>
                name == old(name)
      ensures newName.Some? && user && old(state) !in {Some("generated"), Some("fallback"), Some("manual")} ==>
                name == Some("Новый диалог") && state == Some("pending")
      ensures newName.Some? && !user ==> name == newName && state == Some("manual")
      ensures newName.None? ==> name == old(name)
      ensures newName.None? || (user && old(state) in {Some("generated"), Some("fallback"), Some("manual")}) ==>
                && (key.Keep? ==> state == old(state))
                && (key.Put? ==> state == Some(key.state))
                && (key.Remove? ==> state == None)
    {
      var writeName, writeKey := newName, key;
      if newName.Some? && user {
        if state == Some(GENERATED) || state == Some(FALLBACK) || state == Some(MANUAL) {
          writeName := None;
        } else {
          writeName, writeKey := Some(DEFAULT_TITLE), Put(PENDING);
        }
      } else if newName.Some? {
        writeKey := Put(MANUAL);
      }
      Write(writeName, writeKey);
    }
  }

  // ---- Runs ----------------------------------------------------------------------------------------

  function After(row: Row, ops: seq<Op>): Row {
    Runs.After(row, Next, ops)
  }

  /** Metadata that carries no title state, as every writer of this application's own. */
  predicate Plain(op: Op) {
    op.Update? ==> op.key.Keep?
  }

  /** Or that carries a settled one. */
  predicate Harmless(op: Op) {
    op.Update? ==> op.key.Keep? || op.key == Put(MANUAL) || op.key == Put(GENERATED)
  }

  /** Every such step but a manual rename. */
  predicate Automatic(op: Op) {
    Harmless(op) && !ManualRename(op)
  }

  predicate Settled(row: Row) {
    row.state == Some(MANUAL) || row.state == Some(GENERATED)
  }

  /** A manual or generated name outlives every run of automatic steps: initial names, new attempts
      and late completions included. */
  lemma {:induction false} SettledStays(row: Row, ops: seq<Op>)
    requires Settled(row) && forall i :: 0 <= i < |ops| ==> Automatic(ops[i])
    ensures After(row, ops).name == row.name && Settled(After(row, ops))
    ensures (forall i :: 0 <= i < |ops| ==> Plain(ops[i])) ==> After(row, ops) == row
  {
    if |ops| == 0 {
    } else {
      SettledStays(row, ops[..|ops| - 1]);
    }
  }

  /** Any other name can be replaced automatically: these steps do it. */
  lemma UnsettledChanges(row: Row, title: string)
    requires !Settled(row)
    ensures var ops := [Update(Some(""), true, Keep), Begin, Complete(title, false)];
            && (forall i :: 0 <= i < |ops| ==> Automatic(ops[i]))
            && After(row, ops) == Row(Some(title), Some(GENERATED))
  {
    Runs.Three(row, Next, Update(Some(""), true, Keep), Begin, Complete(title, false));
  }

  /** A name is safe from automatic steps exactly when it is manual or generated. */
  lemma SafeIffSettled(row: Row)
    ensures Settled(row) <==>
              forall ops :: (forall i :: 0 <= i < |ops| ==> Automatic(ops[i])) ==> After(row, ops).name == row.name
  {
    if Settled(row) {
      forall ops | forall i :: 0 <= i < |ops| ==> Automatic(ops[i]) ensures After(row, ops).name == row.name {
        SettledStays(row, ops);
      }
    } else {
      var title := if row.name == Some("a") then "b" else "a";
      UnsettledChanges(row, title);
      assert After(row, [Update(Some(""), true, Keep), Begin, Complete(title, false)]).name != row.name;
    }
  }

  /** Once manual, a name is the one of the latest manual rename, whatever automatic steps follow. */
  lemma {:induction false} LatestRename(row: Row, ops: seq<Op>, k: nat)
    requires k < |ops| && ManualRename(ops[k])
    requires forall i :: k < i < |ops| ==> Automatic(ops[i])
    ensures After(row, ops).name == ops[k].name && Settled(After(row, ops))
    ensures (forall i :: k < i < |ops| ==> Plain(ops[i])) ==> After(row, ops).state == Some(MANUAL)
  {
    if k == |ops| - 1 {
    } else {
      LatestRename(row, ops[..|ops| - 1], k);
    }
  }

  // ---- Late completions ----------------------------------------------------------------------------

  /** A step that starts no new attempt, renames nothing and carries no title state: completions of
      older attempts, initial names and other metadata. */
  predicate Idle(op: Op) {
    !op.Begin? && !ManualRename(op) && Plain(op)
  }

  lemma {:induction false} NamedStays(row: Row, ops: seq<Op>)
    requires Named(row.state) && forall i :: 0 <= i < |ops| ==> Idle(ops[i])
    ensures After(row, ops) == row
  {
    if |ops| == 0 {
    } else {
      NamedStays(row, ops[..|ops| - 1]);
    }
  }

  /** Completions come too late exactly when the chat is named, be it by hand, by a generated title or
      by a fallback: then no number of them, mixed with any idle steps, changes anything. */
  lemma LateCompletion(row: Row)
    ensures Named(row.state) <==> forall ops :: (forall i :: 0 <= i < |ops| ==> Idle(ops[i])) ==> After(row, ops) == row
  {
    if Named(row.state) {
      forall ops | forall i :: 0 <= i < |ops| ==> Idle(ops[i]) ensures After(row, ops) == row {
        NamedStays(row, ops);
      }
    } else {
      var a, b := Update(Some(""), true, Keep), Complete("", false);
      Runs.Three(row, Next, a, b, b);
      assert After(row, [a, b]).state == Some(GENERATED);
      assert forall i :: 0 <= i < 2 ==> Idle([a, b][i]);
    }
  }

  /** Of all the completions that one attempt can lead to, only the first is applied. */
  lemma FirstCompletionWins(row: Row, title: string, fallback: bool, ops: seq<Op>)
    requires row.state == Some(PENDING) && forall i :: 0 <= i < |ops| ==> Idle(ops[i])
    ensures After(Next(row, Complete(title, fallback)), ops)
      == Row(Some(title), Some(if fallback then FALLBACK else GENERATED))
  {
    NamedStays(Next(row, Complete(title, fallback)), ops);
  }

  /** Metadata that does carry the title state can unsettle a name. A step other than a manual rename
      keeps a settled name safe exactly when it writes no state, or a settled one. */
  lemma CarriedState(row: Row, op: Op)
    requires Settled(row) && !ManualRename(op)
    ensures Settled(Next(row, op)) <==> Harmless(op)
  {
  }

  /** For example: metadata saved while a title was pending and written back after a manual rename. */
  lemma StaleMetadataLosesRename(title: string)
    ensures var ops := [Update(Some("Mine"), false, Keep), Update(None, false, Put(PENDING)), Complete(title, false)];
            After(NO_ROW, ops).name == Some(title)
  {
    Runs.Three(NO_ROW, Next, Update(Some("Mine"), false, Keep), Update(None, false, Put(PENDING)),
               Complete(title, false));
  }
}
