/** The `turns` table (sqlite_history.py): rows in insertion order, one primary key over all
    chats and one UNIQUE sequence per chat. */
module History {
  import opened Wrappers
  import opened Conversation

  type Table = seq<Stored>

  /** SELECT * FROM turns WHERE chat_id = c; `Numbered` makes this also the ORDER BY sequence. */
  function ChatRows(t: Table, c: string): seq<Stored> {
    if |t| == 0 then []
    else
      var rest := ChatRows(t[..|t| - 1], c);
      if t[|t| - 1].turn.chat == c then rest + [t[|t| - 1]] else rest
  }

  /** DELETE FROM turns WHERE chat_id = c AND sequence >= s */
  function DeleteFrom(t: Table, c: string, s: nat): Table {
    if |t| == 0 then []
    else
      var rest := DeleteFrom(t[..|t| - 1], c, s);
      var last := t[|t| - 1];
      if last.turn.chat == c && last.sequence >= s then rest else rest + [last]
  }

  function FindTurn(t: Table, id: string): (r: Option<Stored>)
    ensures r.None? <==> forall x :: x in t ==> x.turn.id != id
    ensures r.Some? ==> r.value in t && r.value.turn.id == id
  {
    if |t| == 0 then None
    else if t[|t| - 1].turn.id == id then Some(t[|t| - 1])
    else FindTurn(t[..|t| - 1], id)
  }

  /** COALESCE(MAX(sequence), 0) over one chat */
  function MaxSequence(t: Table, c: string): nat {
    if |t| == 0 then 0
    else
      var rest := MaxSequence(t[..|t| - 1], c);
      if t[|t| - 1].turn.chat == c && t[|t| - 1].sequence > rest then t[|t| - 1].sequence else rest
  }

  /** Recursive, so that it stays folded where only its preservation matters. */
  ghost predicate UniqueIds(t: Table) {
    |t| > 0 ==>
      var n := |t| - 1;
      UniqueIds(t[..n]) && forall i :: 0 <= i < n ==> t[i].turn.id != t[n].turn.id
  }

  ghost predicate DistinctIds(t: Table) {
    forall i, j :: 0 <= i < j < |t| ==> t[i].turn.id != t[j].turn.id
  }

  lemma {:induction false} UniqueIsDistinct(t: Table)
    ensures UniqueIds(t) <==> DistinctIds(t)
  {
    if |t| == 0 {
    } else {
      var n := |t| - 1;
      UniqueIsDistinct(t[..n]);
      if UniqueIds(t) {
        forall i, j | 0 <= i < j < |t| ensures t[i].turn.id != t[j].turn.id {
          if j < n {
            assert t[..n][i].turn.id != t[..n][j].turn.id;
          }
        }
      }
    }
  }

  ghost predicate Numbered(rows: seq<Stored>) {
    forall i :: 0 <= i < |rows| ==> rows[i].sequence == i + 1
  }

  ghost predicate TableOk(t: Table) {
    UniqueIds(t) && forall c :: Numbered(ChatRows(t, c))
  }

  predicate Clashes(t: Table, x: Stored) {
    exists i :: 0 <= i < |t|
                && (t[i].turn.id == x.turn.id || (t[i].turn.chat == x.turn.chat && t[i].sequence == x.sequence))
  }

  /** INSERT, which a primary key or UNIQUE violation turns into an error. */
  function Insert(t: Table, x: Stored): Result<Table> {
    if Clashes(t, x) then Err(Conflict) else Ok(t + [x])
  }

  function InsertAll(t: Table, rows: seq<Stored>): Result<Table> {
    if |rows| == 0 then Ok(t)
    else
      match InsertAll(t, rows[..|rows| - 1])
      case Err(e) => Err(e)
      case Ok(u) => Insert(u, rows[|rows| - 1])
  }

  // ---- Selecting and deleting -----------------------------------------------------------

  lemma ChatRowsAppend(t: Table, x: Stored, c: string)
    ensures ChatRows(t + [x], c) == if x.turn.chat == c then ChatRows(t, c) + [x] else ChatRows(t, c)
  {
    assert (t + [x])[..|t|] == t;
  }

  lemma {:induction false} ChatRowsConcat(t: Table, xs: seq<Stored>, c: string)
    ensures ChatRows(t + xs, c) == ChatRows(t, c) + ChatRows(xs, c)
  {
    if |xs| == 0 {
      assert t + xs == t;
    } else {
      var init, last := xs[..|xs| - 1], xs[|xs| - 1];
      ChatRowsConcat(t, init, c);
      assert t + xs == t + init + [last];
      ChatRowsAppend(t + init, last, c);
      ChatRowsAppend(init, last, c);
      assert xs == init + [last];
    }
  }

  lemma {:induction false} ChatRowsMember(t: Table, c: string, x: Stored)
    ensures x in ChatRows(t, c) <==> x in t && x.turn.chat == c
  {
    if |t| == 0 {
    } else {
      ChatRowsMember(t[..|t| - 1], c, x);
      assert t == t[..|t| - 1] + [t[|t| - 1]];
    }
  }

  lemma {:induction false} ChatRowsOfOne(xs: seq<Stored>, c: string)
    requires forall x :: x in xs ==> x.turn.chat == c
    ensures ChatRows(xs, c) == xs
    ensures forall d :: d != c ==> ChatRows(xs, d) == []
  {
    if |xs| == 0 {
    } else {
      ChatRowsOfOne(xs[..|xs| - 1], c);
      assert xs == xs[..|xs| - 1] + [xs[|xs| - 1]];
    }
  }

  lemma {:induction false} MaxOfNumbered(t: Table, c: string)
    requires Numbered(ChatRows(t, c))
    ensures MaxSequence(t, c) == |ChatRows(t, c)|
  {
    if |t| == 0 {
    } else {
      var rest := ChatRows(t[..|t| - 1], c);
      assert forall i :: 0 <= i < |rest| ==> rest[i] == ChatRows(t, c)[i];
      MaxOfNumbered(t[..|t| - 1], c);
      if t[|t| - 1].turn.chat == c {
        assert ChatRows(t, c)[|rest|] == t[|t| - 1];
      }
    }
  }

  /** A found turn sits in its chat at the place its sequence says. */
  lemma FoundAt(t: Table, x: Stored)
    requires TableOk(t) && x in t
    ensures var rows := ChatRows(t, x.turn.chat);
            1 <= x.sequence <= |rows| && rows[x.sequence - 1] == x
  {
    ChatRowsMember(t, x.turn.chat, x);
    var rows := ChatRows(t, x.turn.chat);
    var i :| 0 <= i < |rows| && rows[i] == x;
  }

  lemma {:induction false} DeleteMember(t: Table, c: string, s: nat, x: Stored)
    ensures x in DeleteFrom(t, c, s) <==> x in t && !(x.turn.chat == c && x.sequence >= s)
  {
    if |t| == 0 {
    } else {
      DeleteMember(t[..|t| - 1], c, s, x);
      assert t == t[..|t| - 1] + [t[|t| - 1]];
    }
  }

  lemma {:induction false} DeleteKeepsUnique(t: Table, c: string, s: nat)
    requires UniqueIds(t)
    ensures UniqueIds(DeleteFrom(t, c, s))
  {
    if |t| == 0 {
    } else {
      var init, last := t[..|t| - 1], t[|t| - 1];
      DeleteKeepsUnique(init, c, s);
      var rest := DeleteFrom(init, c, s);
      forall i | 0 <= i < |rest| ensures rest[i].turn.id != last.turn.id {
        DeleteMember(init, c, s, rest[i]);
      }
      assert (rest + [last])[..|rest|] == rest;
    }
  }

  lemma {:induction false} DeleteOther(t: Table, c: string, s: nat, d: string)
    requires d != c
    ensures ChatRows(DeleteFrom(t, c, s), d) == ChatRows(t, d)
  {
    if |t| == 0 {
    } else {
      var init, last := t[..|t| - 1], t[|t| - 1];
      DeleteOther(init, c, s, d);
      ChatRowsAppend(DeleteFrom(init, c, s), last, d);
    }
  }

  lemma {:induction false} DeleteSuffix(t: Table, c: string, s: nat)
    requires Numbered(ChatRows(t, c)) && s >= 1
    ensures var rows := ChatRows(t, c);
            ChatRows(DeleteFrom(t, c, s), c) == rows[..if s - 1 <= |rows| then s - 1 else |rows|]
  {
    if |t| == 0 {
    } else {
      var init, last := t[..|t| - 1], t[|t| - 1];
      var rest := ChatRows(init, c);
      assert forall i :: 0 <= i < |rest| ==> rest[i] == ChatRows(t, c)[i];
      DeleteSuffix(init, c, s);
      ChatRowsAppend(DeleteFrom(init, c, s), last, c);
      if last.turn.chat == c {
        assert last.sequence == |rest| + 1 by {
          assert ChatRows(t, c)[|rest|] == last;
        }
      }
    }
  }

  lemma {:induction false} DeleteIdle(t: Table, c: string, s: nat, x: Stored)
    requires x.turn.chat == c && x.sequence >= s
    ensures DeleteFrom(DeleteFrom(t, c, s) + [x], c, s) == DeleteFrom(t, c, s)
  {
    var u := DeleteFrom(t, c, s);
    assert (u + [x])[..|u|] == u;
    DeleteTwice(t, c, s);
  }

  lemma {:induction false} DeleteTwice(t: Table, c: string, s: nat)
    ensures DeleteFrom(DeleteFrom(t, c, s), c, s) == DeleteFrom(t, c, s)
  {
    if |t| == 0 {
    } else {
      var init, last := t[..|t| - 1], t[|t| - 1];
      DeleteTwice(init, c, s);
      var u := DeleteFrom(init, c, s);
      assert (u + [last])[..|u|] == u;
    }
  }

  // ---- Inserting ------------------------------------------------------------------------

  lemma AppendKeepsTable(t: Table, x: Stored)
    requires TableOk(t) && !Clashes(t, x)
    requires x.sequence == |ChatRows(t, x.turn.chat)| + 1
    ensures TableOk(t + [x])
  {
    assert (t + [x])[..|t|] == t;
    forall c ensures Numbered(ChatRows(t + [x], c)) {
      ChatRowsAppend(t, x, c);
      assert Numbered(ChatRows(t, c));
    }
  }

  /** The next sequence of a chat is always free. */
  lemma NextIsFree(t: Table, x: Stored)
    requires TableOk(t)
    requires x.sequence > |ChatRows(t, x.turn.chat)|
    ensures Clashes(t, x) <==> exists y :: y in t && y.turn.id == x.turn.id
  {
    forall y | y in t && y.turn.chat == x.turn.chat ensures y.sequence != x.sequence {
      FoundAt(t, y);
    }
    if exists y :: y in t && y.turn.id == x.turn.id {
      var y :| y in t && y.turn.id == x.turn.id;
      var i :| 0 <= i < |t| && t[i] == y;
      assert Clashes(t, x);
    }
  }

  lemma SameIdSameRow(t: Table, x: Stored, y: Stored)
    requires UniqueIds(t) && x in t && y in t && x.turn.id == y.turn.id
    ensures x == y
  {
    UniqueIsDistinct(t);
  }

  lemma {:induction false} InsertAllFresh(t: Table, rows: seq<Stored>)
    requires forall i :: 0 <= i < |rows| ==> !Clashes(t, rows[i])
    requires forall i, j :: 0 <= i < j < |rows| ==>
               rows[i].turn.id != rows[j].turn.id && rows[i].sequence != rows[j].sequence
    ensures InsertAll(t, rows) == Ok(t + rows)
  {
    if |rows| == 0 {
      assert t + rows == t;
    } else {
      var init, last := rows[..|rows| - 1], rows[|rows| - 1];
      InsertAllFresh(t, init);
      forall k | 0 <= k < |t + init|
        ensures (t + init)[k].turn.id != last.turn.id
                && !((t + init)[k].turn.chat == last.turn.chat && (t + init)[k].sequence == last.sequence)
      {
        if k < |t| {
          assert (t + init)[k] == t[k];
        } else {
          assert (t + init)[k] == rows[k - |t|];
        }
      }
      assert !Clashes(t + init, last);
      assert t + rows == t + init + [last];
    }
  }

  /** A row of the continuation from sequence s is in the table but not among the kept rows. */
  lemma ContinuationRow(t: Table, c: string, s: nat, i: nat)
    requires TableOk(t) && s >= 1 && s - 1 + i < |ChatRows(t, c)|
    ensures var x := ChatRows(t, c)[s - 1 + i];
            x in t && x.turn.chat == c && x.sequence == s + i && !Clashes(DeleteFrom(t, c, s), x)
  {
    var x := ChatRows(t, c)[s - 1 + i];
    ChatRowsMember(t, c, x);
    forall y | y in DeleteFrom(t, c, s)
      ensures y.turn.id != x.turn.id && !(y.turn.chat == x.turn.chat && y.sequence == x.sequence)
    {
      DeleteMember(t, c, s, y);
      if y.turn.id == x.turn.id {
        SameIdSameRow(t, y, x);
      }
    }
  }

  lemma UniqueConcat(kept: Table, rows: seq<Stored>)
    requires UniqueIds(kept) && UniqueIds(rows)
    requires forall i :: 0 <= i < |rows| ==> !Clashes(kept, rows[i])
    ensures UniqueIds(kept + rows)
  {
    var u := kept + rows;
    UniqueIsDistinct(kept);
    UniqueIsDistinct(rows);
    UniqueIsDistinct(u);
    forall i, j | 0 <= i < j < |u| ensures u[i].turn.id != u[j].turn.id {
      if i < |kept| <= j {
        assert !Clashes(kept, rows[j - |kept|]);
      }
    }
  }

  lemma InsertContinuation(t: Table, c: string, s: nat)
    requires TableOk(t) && 1 <= s <= |ChatRows(t, c)| + 1
    ensures InsertAll(DeleteFrom(t, c, s), ChatRows(t, c)[s - 1..]) == Ok(DeleteFrom(t, c, s) + ChatRows(t, c)[s - 1..])
    ensures UniqueIds(DeleteFrom(t, c, s) + ChatRows(t, c)[s - 1..])
  {
    var kept, rows := DeleteFrom(t, c, s), ChatRows(t, c)[s - 1..];
    forall i | 0 <= i < |rows|
      ensures rows[i] in t && rows[i].sequence == s + i && !Clashes(kept, rows[i])
    {
      ContinuationRow(t, c, s, i);
    }
    forall i, j | 0 <= i < j < |rows| ensures rows[i].turn.id != rows[j].turn.id {
      if rows[i].turn.id == rows[j].turn.id {
        SameIdSameRow(t, rows[i], rows[j]);
      }
    }
    InsertAllFresh(kept, rows);
    DeleteKeepsUnique(t, c, s);
    UniqueIsDistinct(rows);
    UniqueConcat(kept, rows);
  }

  lemma ReinsertedRows(t: Table, c: string, s: nat)
    requires TableOk(t) && 1 <= s <= |ChatRows(t, c)| + 1
    ensures forall d :: ChatRows(DeleteFrom(t, c, s) + ChatRows(t, c)[s - 1..], d) == ChatRows(t, d)
  {
    var kept, rows := DeleteFrom(t, c, s), ChatRows(t, c)[s - 1..];
    forall x | x in rows ensures x.turn.chat == c {
      ChatRowsMember(t, c, x);
    }
    ChatRowsOfOne(rows, c);
    forall d ensures ChatRows(kept + rows, d) == ChatRows(t, d) {
      ChatRowsConcat(kept, rows, d);
      if d == c {
        DeleteSuffix(t, c, s);
      } else {
        DeleteOther(t, c, s, d);
      }
    }
  }

  /** Deleting a continuation and inserting the very rows that were captured gives every chat
      the rows it had, whatever replaced the continuation in between. */
  lemma ReinsertContinuation(t: Table, c: string, s: nat)
    requires TableOk(t) && 1 <= s <= |ChatRows(t, c)| + 1
    ensures InsertAll(DeleteFrom(t, c, s), ChatRows(t, c)[s - 1..]).Ok?
    ensures TableOk(InsertAll(DeleteFrom(t, c, s), ChatRows(t, c)[s - 1..]).value)
    ensures forall d :: ChatRows(InsertAll(DeleteFrom(t, c, s), ChatRows(t, c)[s - 1..]).value, d) == ChatRows(t, d)
  {
    InsertContinuation(t, c, s);
    ReinsertedRows(t, c, s);
    var u := DeleteFrom(t, c, s) + ChatRows(t, c)[s - 1..];
    forall d ensures Numbered(ChatRows(u, d)) {
      assert Numbered(ChatRows(t, d));
      assert ChatRows(u, d) == ChatRows(t, d);
    }
  }

  /** Cutting a chat at a row and inserting another row at its sequence. */
  lemma ReplacedRows(t: Table, row: Stored, x: Stored)
    requires TableOk(t) && row in t && x.turn.chat == row.turn.chat && x.sequence == row.sequence
    ensures var c, s := row.turn.chat, row.sequence;
            var kept := DeleteFrom(t, c, s);
            && 1 <= s <= |ChatRows(t, c)| + 1
            && ChatRows(kept + [x], c) == ChatRows(t, c)[..s - 1] + [x]
            && (forall d :: d != c ==> ChatRows(kept + [x], d) == ChatRows(t, d))
            && (!Clashes(kept, x) ==> TableOk(kept + [x]))
            && (x.turn.id == row.turn.id ==> !Clashes(kept, x))
  {
    var c, s := row.turn.chat, row.sequence;
    var kept := DeleteFrom(t, c, s);
    FoundAt(t, row);
    DeleteSuffix(t, c, s);
    DeleteKeepsUnique(t, c, s);
    forall d ensures Numbered(ChatRows(kept, d)) && (d != c ==> ChatRows(kept, d) == ChatRows(t, d)) {
      assert Numbered(ChatRows(t, d));
      if d != c {
        DeleteOther(t, c, s, d);
      }
    }
    NextIsFree(kept, x);
    forall y | y in kept ensures x.turn.id == row.turn.id ==> y.turn.id != x.turn.id {
      DeleteMember(t, c, s, y);
      if y.turn.id == row.turn.id {
        SameIdSameRow(t, y, row);
      }
    }
    if !Clashes(kept, x) {
      AppendKeepsTable(kept, x);
    }
    forall d ensures ChatRows(kept + [x], d) == if c == d then ChatRows(kept, d) + [x] else ChatRows(kept, d) {
      ChatRowsAppend(kept, x, d);
    }
  }

  // ---- Importing visible history --------------------------------------------------------

  /** The user and assistant messages of completed turns. */
  function Pairs(rows: seq<Stored>): Context {
    if |rows| == 0 then []
    else
      var turn := rows[|rows| - 1].turn;
      Pairs(rows[..|rows| - 1]) + [Human(turn.text, turn.id), Assistant(turn.answer, "answer-" + turn.id, false)]
  }

  /** Turn i contributes its request and, right after it, its answer, under identifiers of their own. */
  lemma {:induction false} PairsAre(rows: seq<Stored>, i: nat)
    requires i < |rows|
    ensures |Pairs(rows)| == 2 * |rows|
    ensures Pairs(rows)[2 * i] == Human(rows[i].turn.text, rows[i].turn.id)
    ensures Pairs(rows)[2 * i + 1] == Assistant(rows[i].turn.answer, "answer-" + rows[i].turn.id, false)
  {
    var n := |rows| - 1;
    if i < n {
      PairsAre(rows[..n], i);
    } else if n > 0 {
      PairsAre(rows[..n], 0);
    }
  }

  /** The first row that carries a checkpoint, or |rows|. */
  function FirstWith(rows: seq<Stored>, token: Token): (i: nat)
    ensures i <= |rows|
    ensures i < |rows| ==> rows[i].turn.memory == token
    ensures forall j :: 0 <= j < i ==> rows[j].turn.memory != token
  {
    if |rows| == 0 then 0
    else
      var i := FirstWith(rows[..|rows| - 1], token);
      if i < |rows| - 1 || rows[|rows| - 1].turn.memory == token then i else |rows|
  }

  /** The messages a legacy token stands for: the visible history before its turn. */
  function Before(rows: seq<Stored>, token: Token): Result<Context> {
    var i := FirstWith(rows, token);
    if i < |rows| then Ok(Pairs(rows[..i])) else Err(Invalid)
  }

  datatype HistorySnapshot = HistorySnapshot(chat: string, start: nat, rows: seq<Stored>)

  class SQLiteHistory {
    var table: Table

    constructor ()
      ensures table == [] && Valid()
    {
      table := [];
    }

    ghost predicate Valid()
      reads this
    {
      TableOk(table)
    }

    /** `fault` is an I/O failure or cancellation before the transaction commits. */
    method Append(turn: Turn, now: nat, fault: bool) returns (r: Result<()>)
      requires Valid()
      modifies this
      ensures Valid()
      ensures r.Ok? <==> !fault && FindTurn(old(table), turn.id).None?
      ensures r.Err? ==> table == old(table)
      ensures r.Ok? ==> var row := Stored(turn, |ChatRows(old(table), turn.chat)| + 1, now);
                        && table == old(table) + [row]
                        && ChatRows(table, turn.chat) == ChatRows(old(table), turn.chat) + [row]
      ensures r.Ok? ==> forall d :: d != turn.chat ==> ChatRows(table, d) == ChatRows(old(table), d)
    {
      if fault {
        return Err(Interrupted);
      }
      var sequence := MaxSequence(table, turn.chat) + 1;
      var row := Stored(turn, sequence, now);
      MaxOfNumbered(table, turn.chat);
      NextIsFree(table, row);
      if Clashes(table, row) {
        return Err(Conflict);
      }
      AppendKeepsTable(table, row);
      forall d
        ensures ChatRows(table + [row], d)
                == if row.turn.chat == d then ChatRows(table, d) + [row] else ChatRows(table, d)
      {
        ChatRowsAppend(table, row, d);
      }
      table := table + [row];
      return Ok(());
    }

    /** Replace a turn and everything after it by a row at the same sequence. A replacement that keeps
        the chat keeps the numbering, and one that keeps the id as well cannot clash. */
    method ReplaceFrom(turnId: string, turn: Turn, now: nat, fault: bool) returns (r: Result<()>)
      requires Valid()
      modifies this
      ensures r.Ok? ==> !fault && FindTurn(old(table), turnId).Some?
      ensures r.Err? ==> table == old(table) && Valid()
      ensures !fault && FindTurn(old(table), turnId).Some? ==>
                var s, c := FindTurn(old(table), turnId).value.sequence, FindTurn(old(table), turnId).value.turn.chat;
                var kept, row := DeleteFrom(old(table), c, s), Stored(turn, s, now);
                && (r.Ok? <==> !Clashes(kept, row)) && (r.Ok? ==> table == kept + [row])
                && (turn.id == turnId && turn.chat == c ==> r.Ok?)
                && (r.Ok? <==> forall y :: y in old(table) && !(y.turn.chat == c && y.sequence >= s) ==>
                                 y.turn.id != turn.id && (y.turn.chat == turn.chat ==> y.sequence != s))
                && 1 <= s <= |ChatRows(old(table), c)| + 1
                && (r.Ok? && turn.chat == c ==> ChatRows(table, c) == ChatRows(old(table), c)[..s - 1] + [row])
                && (r.Ok? && turn.chat == c ==> forall d :: d != c ==> ChatRows(table, d) == ChatRows(old(table), d))
      ensures FindTurn(old(table), turnId).Some? && turn.chat == FindTurn(old(table), turnId).value.turn.chat ==>
                Valid()
    {
      if fault {
        return Err(Interrupted);
      }
      var row := FindTurn(table, turnId);
      if row.None? {
        return Err(NotFound);
      }
      FoundAt(table, row.value);
      var c, s := row.value.turn.chat, row.value.sequence;
      var kept := DeleteFrom(table, c, s);
      var x := Stored(turn, s, now);
      ClashesAre(table, c, s, x);
      if turn.chat == c {
        ReplacedRows(table, row.value, x);
      }
      var inserted := Insert(kept, x);
      if inserted.Err? {
        return Err(inserted.error);
      }
      table := inserted.value;
      return Ok(());
    }

    method Get(turnId: string, fault: bool) returns (r: Result<Turn>)
      ensures r.Ok? <==> !fault && FindTurn(table, turnId).Some?
      ensures r.Ok? ==> r.value == FindTurn(table, turnId).value.turn
    {
      if fault {
        return Err(Interrupted);
      }
      var row := FindTurn(table, turnId);
      return if row.Some? then Ok(row.value.turn) else Err(NotFound);
    }

    method SnapshotFrom(turnId: string, fault: bool) returns (r: Result<HistorySnapshot>)
      requires Valid()
      ensures r.Ok? <==> !fault && FindTurn(table, turnId).Some?
      ensures r.Ok? ==> var row := FindTurn(table, turnId).value;
                        && 1 <= row.sequence <= |ChatRows(table, row.turn.chat)|
                        && r.value == HistorySnapshot(row.turn.chat, row.sequence,
                                                      ChatRows(table, row.turn.chat)[row.sequence - 1..])
    {
      if fault {
        return Err(Interrupted);
      }
      var row := FindTurn(table, turnId);
      if row.None? {
        return Err(NotFound);
      }
      FoundAt(table, row.value);
      var c := row.value.turn.chat;
      return Ok(HistorySnapshot(c, row.value.sequence, ChatRows(table, c)[row.value.sequence - 1..]));
    }

    /** Put a captured continuation back, in one transaction. */
    method RestoreSnapshot(snapshot: HistorySnapshot) returns (r: Result<()>)
      modifies this
      ensures var result := InsertAll(DeleteFrom(old(table), snapshot.chat, snapshot.start), snapshot.rows);
              && (r.Ok? <==> result.Ok?)
              && table == if result.Ok? then result.value else old(table)
    {
      var pending := DeleteFrom(table, snapshot.chat, snapshot.start);
      var i := 0;
      while i < |snapshot.rows|
        invariant 0 <= i <= |snapshot.rows|
        invariant InsertAll(DeleteFrom(table, snapshot.chat, snapshot.start), snapshot.rows[..i]) == Ok(pending)
        invariant table == old(table)
      {
        assert snapshot.rows[..i + 1][..i] == snapshot.rows[..i];
        var inserted := Insert(pending, snapshot.rows[i]);
        if inserted.Err? {
          InsertAllStops(DeleteFrom(table, snapshot.chat, snapshot.start), snapshot.rows, i + 1);
          return Err(inserted.error);
        }
        pending := inserted.value;
        i := i + 1;
      }
      assert snapshot.rows[..i] == snapshot.rows;
      table := pending;
      return Ok(());
    }

    method DeleteChat(c: string)
      requires Valid()
      modifies this
      ensures Valid()
      ensures ChatRows(table, c) == []
      ensures forall d :: d != c ==> ChatRows(table, d) == ChatRows(old(table), d)
    {
      DeleteSuffix(table, c, 1);
      DeleteZero(table, c);
      DeleteKeepsUnique(table, c, 0);
      forall d ensures d != c ==> ChatRows(DeleteFrom(table, c, 0), d) == ChatRows(table, d) {
        assert Numbered(ChatRows(table, d));
        if d != c {
          DeleteOther(table, c, 0, d);
        }
      }
      table := DeleteFrom(table, c, 0);
    }

    /** Build the visible history message by message, stopping at the turn a legacy token names. */
    method ContextMessages(c: string, before: Option<Token>) returns (r: Result<Context>)
      ensures before.None? ==> r == Ok(Pairs(ChatRows(table, c)))
      ensures before.Some? ==> r == Before(ChatRows(table, c), before.value)
    {
      var rows := ChatRows(table, c);
      var messages: Context := [];
      var i := 0;
      while i < |rows|
        invariant 0 <= i <= |rows|
        invariant messages == Pairs(rows[..i])
        invariant before.Some? ==> forall j :: 0 <= j < i ==> rows[j].turn.memory != before.value
      {
        if before.Some? && rows[i].turn.memory == before.value {
          assert FirstWith(rows, before.value) == i;
          return Ok(messages);
        }
        assert rows[..i + 1][..i] == rows[..i];
        messages := messages + [Human(rows[i].turn.text, rows[i].turn.id),
                                Assistant(rows[i].turn.answer, "answer-" + rows[i].turn.id, false)];
        i := i + 1;
      }
      assert rows[..i] == rows;
      if before.Some? {
        return Err(Invalid);
      }
      return Ok(messages);
    }
  }

  /** A failed insert fails the whole batch. */
  lemma {:induction false} InsertAllStops(t: Table, rows: seq<Stored>, k: nat)
    requires k <= |rows| && InsertAll(t, rows[..k]).Err?
    ensures InsertAll(t, rows).Err?
    decreases |rows| - k
  {
    if k < |rows| {
      assert rows[..k + 1][..k] == rows[..k];
      InsertAllStops(t, rows, k + 1);
    } else {
      assert rows[..k] == rows;
    }
  }

  /** A row clashes with what a deletion keeps exactly if a kept row has its id or its place. */
  lemma ClashesAre(t: Table, c: string, s: nat, x: Stored)
    ensures Clashes(DeleteFrom(t, c, s), x)
            <==> exists y :: y in t && !(y.turn.chat == c && y.sequence >= s)
                             && (y.turn.id == x.turn.id || (y.turn.chat == x.turn.chat && y.sequence == x.sequence))
  {
    forall y ensures y in DeleteFrom(t, c, s) <==> y in t && !(y.turn.chat == c && y.sequence >= s) {
      DeleteMember(t, c, s, y);
    }
    hide DeleteFrom;
    var kept := DeleteFrom(t, c, s);
    assert forall y :: y in kept <==> exists i :: 0 <= i < |kept| && kept[i] == y;
  }

  lemma {:induction false} DeleteZero(t: Table, c: string)
    ensures ChatRows(DeleteFrom(t, c, 0), c) == []
  {
    if |t| == 0 {
    } else {
      DeleteZero(t[..|t| - 1], c);
      ChatRowsAppend(DeleteFrom(t[..|t| - 1], c, 0), t[|t| - 1], c);
    }
  }
}
