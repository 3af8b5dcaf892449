/** Draining the UI writes that run in the background (chainlit_persistence.py): a write may schedule
    further writes, and a turn is decided only when none is left. */
module Persistence {
  /** A background write, whether it fails, and the writes that it schedules meanwhile. */
  datatype Write = Write(id: string, fails: bool, scheduled: seq<Write>)

  function Size(ws: seq<Write>): nat {
    if |ws| == 0 then 0 else 1 + Size(ws[0].scheduled) + Size(ws[1..])
  }

  /** Every write that these lead to, with its failure. */
  function Everything(ws: seq<Write>): multiset<(string, bool)> {
    if |ws| == 0 then multiset{}
    else multiset{(ws[0].id, ws[0].fails)} + Everything(ws[0].scheduled) + Everything(ws[1..])
  }

  /** The writes themselves, without what they schedule. */
  function Heads(ws: seq<Write>): seq<(string, bool)> {
    if |ws| == 0 then [] else [(ws[0].id, ws[0].fails)] + Heads(ws[1..])
  }

  /** What they schedule while they are awaited. */
  function Scheduled(ws: seq<Write>): seq<Write> {
    if |ws| == 0 then [] else ws[0].scheduled + Scheduled(ws[1..])
  }

  lemma Unfold(ws: seq<Write>)
    ensures Size(ws) == if |ws| == 0 then 0 else 1 + Size(ws[0].scheduled) + Size(ws[1..])
    ensures Everything(ws) == if |ws| == 0 then multiset{}
                              else multiset{(ws[0].id, ws[0].fails)} + Everything(ws[0].scheduled) + Everything(ws[1..])
  {
  }

  lemma {:induction false} Concat(a: seq<Write>, b: seq<Write>)
    ensures Size(a + b) == Size(a) + Size(b)
    ensures Everything(a + b) == Everything(a) + Everything(b)
  {
    hide Size, Everything;
    Unfold(a);
    if |a| == 0 {
      assert a + b == b;
    } else {
      Unfold(a + b);
      assert (a + b)[1..] == a[1..] + b;
      Concat(a[1..], b);
    }
  }

  /** One round of waiting leaves exactly the writes that were scheduled during it. */
  lemma {:induction false} Round(ws: seq<Write>)
    ensures Size(ws) == |ws| + Size(Scheduled(ws))
    ensures Everything(ws) == multiset(Heads(ws)) + Everything(Scheduled(ws))
  {
    if |ws| == 0 {
    } else {
      Round(ws[1..]);
      Concat(ws[0].scheduled, Scheduled(ws[1..]));
      assert Heads(ws) == [(ws[0].id, ws[0].fails)] + Heads(ws[1..]);
    }
  }

  predicate Succeeded(results: seq<(string, bool)>) {
    forall i :: 0 <= i < |results| ==> !results[i].1
  }

  class PendingWrites {
    var tasks: seq<Write>

    constructor ()
      ensures tasks == []
    {
      tasks := [];
    }

    method Track(w: Write)
      modifies this
      ensures tasks == old(tasks) + [w]
    {
      tasks := tasks + [w];
    }

    /** What an awaited write schedules. */
    method TrackAll(scheduled: seq<Write>)
      modifies this
      ensures tasks == old(tasks) + scheduled
    {
      var i := 0;
      while i < |scheduled|
        invariant 0 <= i <= |scheduled| && tasks == old(tasks) + scheduled[..i]
      {
        Track(scheduled[i]);
        i := i + 1;
      }
    }

    /** Wait for a round of writes; those scheduled meanwhile are tracked. */
    method Gather(pending: seq<Write>) returns (results: seq<(string, bool)>)
      modifies this
      ensures results == Heads(pending) && tasks == old(tasks) + Scheduled(pending)
    {
      results := [];
      var i := 0;
      while i < |pending|
        invariant 0 <= i <= |pending| && results + Heads(pending[i..]) == Heads(pending)
        invariant tasks + Scheduled(pending[i..]) == old(tasks) + Scheduled(pending)
      {
        results := results + [(pending[i].id, pending[i].fails)];
        TrackAll(pending[i].scheduled);
        assert pending[i..][1..] == pending[i + 1..];
        i := i + 1;
      }
    }

    /** Wait until no tracked write is left, and only then report a failure. Every write has completed
        exactly once, also those that were scheduled while waiting. */
    method Drain() returns (ok: bool, ghost completed: seq<(string, bool)>)
      modifies this
      ensures tasks == [] && multiset(completed) == Everything(old(tasks))
      ensures ok <==> Succeeded(completed)
    {
      hide Size, Everything, Scheduled, Heads;
      var results: seq<(string, bool)> := [];
      while tasks != []
        invariant multiset(results) + Everything(tasks) == Everything(old(tasks))
        decreases Size(tasks)
      {
        var pending := tasks;
        Round(pending);
        tasks := [];
        var done := Gather(pending);
        assert tasks == Scheduled(pending);
        results := results + done;
      }
      completed := results;
      Unfold(tasks);
      var i := 0;
      while i < |results|
        invariant 0 <= i <= |results| && forall j :: 0 <= j < i ==> !results[j].1
      {
        if results[i].1 {
          return false, completed;
        }
        i := i + 1;
      }
      return true, completed;
    }
  }
}
