/** The capped worklist traversal behind ls, glob and grep (sandbox_tools.py). The directory tree is
    any listing function, so that it may be deeper than any bound or not well founded at all. */
module Traversal {
  import opened Wrappers

  const MAX_ENTRIES := 1000

  type Path = seq<string>

  datatype Kind = File | Dir | Link | Special
  datatype DirEntry = DirEntry(name: string, kind: Kind)

  /** The entries of a directory in scan order; nothing if it cannot be opened as a directory. */
  type Listing = Path -> Option<seq<DirEntry>>

  datatype Found = Found(path: Path, isDir: bool)

  ghost predicate DistinctNames(entries: seq<DirEntry>) {
    forall i, j :: 0 <= i < j < |entries| ==> entries[i].name != entries[j].name
  }

  ghost predicate DistinctPaths(found: seq<Found>) {
    forall i, j :: 0 <= i < j < |found| ==> found[i].path != found[j].path
  }

  /** The file or directory that an entry of this directory stands for. */
  ghost predicate EntryOf(parent: Path, entries: seq<DirEntry>, f: Found) {
    && |f.path| > 0 && f.path[..|f.path| - 1] == parent
    && DirEntry(f.path[|f.path| - 1], if f.isDir then Dir else File) in entries
  }

  /** A file or directory directly inside a directory. */
  ghost predicate Child(list: Listing, parent: Path, f: Found) {
    list(parent).Some? && EntryOf(parent, list(parent).value, f)
  }

  /** A file or directory under the start: directly, or through directories when recursive. */
  ghost predicate Listed(list: Listing, start: Path, recursive: bool, f: Found)
    decreases |f.path|
  {
    && |f.path| > |start|
    && var parent := f.path[..|f.path| - 1];
       Child(list, parent, f) && (parent == start || (recursive && Listed(list, start, recursive, Found(parent, true))))
  }

  /** What a directory contributes: its files and directories, in order. */
  function Kept(parent: Path, entries: seq<DirEntry>): seq<Found> {
    if |entries| == 0 then []
    else
      var e := entries[|entries| - 1];
      Kept(parent, entries[..|entries| - 1])
      + if e.kind.File? || e.kind.Dir? then [Found(parent + [e.name], e.kind.Dir?)] else []
  }

  function DirsIn(found: seq<Found>): seq<Path> {
    if |found| == 0 then []
    else DirsIn(found[..|found| - 1]) + if found[|found| - 1].isDir then [found[|found| - 1].path] else []
  }

  lemma LastEntry(parent: Path, e: DirEntry, f: Found)
    ensures EntryOf(parent, [e], f) <==> (e.kind.File? || e.kind.Dir?) && f == Found(parent + [e.name], e.kind.Dir?)
  {
    var last := Found(parent + [e.name], e.kind.Dir?);
    assert last.path[..|parent|] == parent;
    if EntryOf(parent, [e], f) {
      assert f.path == f.path[..|f.path| - 1] + [e.name];
    }
  }

  lemma {:induction false} KeptAre(parent: Path, entries: seq<DirEntry>)
    ensures forall f :: f in Kept(parent, entries) <==> EntryOf(parent, entries, f)
  {
    if |entries| == 0 {
    } else {
      var n := |entries| - 1;
      KeptAre(parent, entries[..n]);
      assert entries == entries[..n] + [entries[n]];
      forall f ensures f in Kept(parent, entries) <==> EntryOf(parent, entries, f) {
        LastEntry(parent, entries[n], f);
      }
    }
  }

  lemma {:induction false} KeptDiffer(parent: Path, entries: seq<DirEntry>)
    requires DistinctNames(entries)
    ensures DistinctPaths(Kept(parent, entries))
  {
    if |entries| == 0 {
    } else {
      var n := |entries| - 1;
      KeptDiffer(parent, entries[..n]);
      KeptAre(parent, entries[..n]);
      var name := entries[n].name;
      assert (parent + [name])[|parent|] == name;
      forall f | f in Kept(parent, entries[..n]) ensures f.path != parent + [name] {
        assert EntryOf(parent, entries[..n], f);
        assert forall d :: d in entries[..n] ==> d.name != name;
      }
    }
  }

  lemma {:induction false} DirsAre(found: seq<Found>)
    ensures forall p :: p in DirsIn(found) <==> Found(p, true) in found
    ensures DistinctPaths(found) ==> DistinctDirs(DirsIn(found))
  {
    if |found| == 0 {
    } else {
      var n := |found| - 1;
      DirsAre(found[..n]);
      assert found == found[..n] + [found[n]];
      if DistinctPaths(found) {
        forall p | p in DirsIn(found[..n]) ensures p != found[n].path {
          assert Found(p, true) in found[..n];
        }
      }
    }
  }

  lemma KeptStep(parent: Path, entries: seq<DirEntry>, i: nat)
    requires i < |entries|
    ensures var e := entries[i];
            Kept(parent, entries[..i + 1])
            == Kept(parent, entries[..i]) + if e.kind.File? || e.kind.Dir?
                                              then [Found(parent + [e.name], e.kind.Dir?)] else []
  {
    assert entries[..i + 1][..i] == entries[..i];
  }

  lemma DirsStep(found: seq<Found>, f: Found)
    ensures DirsIn(found + [f]) == DirsIn(found) + if f.isDir then [f.path] else []
  {
    assert (found + [f])[..|found|] == found;
  }

  lemma {:induction false} KeptPrefix(parent: Path, entries: seq<DirEntry>, i: nat)
    requires i <= |entries|
    ensures Kept(parent, entries[..i]) <= Kept(parent, entries)
  {
    if i < |entries| {
      var n := |entries| - 1;
      KeptPrefix(parent, entries[..n], i);
      assert entries[..n][..i] == entries[..i];
    } else {
      assert entries[..i] == entries;
    }
  }

  /** Scan one directory, stopping at the cap. */
  method Scan(parent: Path, entries: seq<DirEntry>, recursive: bool, result: seq<Found>, pending: seq<Path>)
    returns (result': seq<Found>, pending': seq<Path>)
    requires |result| < MAX_ENTRIES
    ensures |result'| <= MAX_ENTRIES && result <= result' <= result + Kept(parent, entries)
    ensures |result'| < MAX_ENTRIES ==> result' == result + Kept(parent, entries)
    ensures pending' == pending + if recursive then DirsIn(result'[|result|..]) else []
  {
    hide Kept, DirsIn;
    ghost var news: seq<Found>;
    result', pending' := result, pending;
    var i := 0;
    news := [];
    Nothing(parent, entries);
    while i < |entries|
      invariant 0 <= i <= |entries| && news == Kept(parent, entries[..i]) && |result| + |news| < MAX_ENTRIES
      invariant result' == result + news && pending' == pending + if recursive then DirsIn(news) else []
    {
      var entry := entries[i];
      KeptStep(parent, entries, i);
      i := i + 1;
      if entry.kind.Link? || entry.kind.Special? {
        continue;
      }
      var found := Found(parent + [entry.name], entry.kind.Dir?);
      DirsStep(news, found);
      news := news + [found];
      result' := result' + [found];
      if recursive && entry.kind.Dir? {
        pending' := pending' + [found.path];
      }
      if |result'| >= MAX_ENTRIES {
        break;
      }
    }
    KeptPrefix(parent, entries, i);
    assert i == |entries| ==> entries[..i] == entries;
    assert result'[|result|..] == news;
  }

  lemma Nothing(parent: Path, entries: seq<DirEntry>)
    ensures Kept(parent, entries[..0]) == [] && DirsIn([]) == []
  {
  }

  // ---- The worklist -----------------------------------------------------------------------------

  /** A directory that may be on the worklist. */
  ghost predicate Known(start: Path, recursive: bool, result: seq<Found>, p: Path) {
    p == start || (recursive && Found(p, true) in result)
  }

  /** Everything found is listed and found once, in a visited directory; no directory is visited twice. */
  ghost predicate Sound(list: Listing, start: Path, recursive: bool, result: seq<Found>, pending: seq<Path>,
                        visited: set<Path>) {
    && (forall f :: f in result ==> Listed(list, start, recursive, f) && f.path[..|f.path| - 1] in visited)
    && DistinctPaths(result)
    && (forall p :: p in pending ==> p !in visited && Known(start, recursive, result, p))
    && (forall p :: p in visited ==> Known(start, recursive, result, p))
    && DistinctDirs(pending)
  }

  /** Everything in a visited directory has been found, and its directories are visited or pending. */
  ghost predicate Complete(list: Listing, start: Path, recursive: bool, result: seq<Found>,
                           pending: seq<Path>, visited: set<Path>) {
    && (start in pending || start in visited)
    && forall p, f :: p in visited && Child(list, p, f) ==>
         f in result && (recursive && f.isDir ==> f.path in pending || f.path in visited)
  }

  /** New entries of a directory that was not visited before are new, and listed. */
  lemma NewsAreNew(list: Listing, start: Path, recursive: bool, result: seq<Found>,
                   pending: seq<Path>, visited: set<Path>, news: seq<Found>)
    requires Sound(list, start, recursive, result, pending, visited) && |pending| > 0
    requires list(pending[|pending| - 1]).Some? && DistinctNames(list(pending[|pending| - 1]).value)
    requires news <= Kept(pending[|pending| - 1], list(pending[|pending| - 1]).value)
    ensures DistinctPaths(result + news)
    ensures forall f :: f in news ==>
              Listed(list, start, recursive, f) && |f.path| > 0 && f.path[..|f.path| - 1] == pending[|pending| - 1]
    ensures forall f :: f in news ==> f.path !in pending && f.path !in visited
  {
    var parent := pending[|pending| - 1];
    var entries := list(parent).value;
    KeptAre(parent, entries);
    KeptDiffer(parent, entries);
    assert parent in pending && Known(start, recursive, result, parent);
    forall f | f in news ensures Listed(list, start, recursive, f) && |f.path| > 0 && f.path[..|f.path| - 1] == parent {
      assert f in Kept(parent, entries);
      assert Child(list, parent, f);
    }
    forall f, g | f in news && g in result ensures f.path != g.path {
    }
    forall f, p | f in news && Known(start, recursive, result, p) ensures f.path != p {
      assert |f.path| > |start|;
    }
    var k := Kept(parent, entries);
    assert DistinctPaths(news) by {
      assert forall i :: 0 <= i < |news| ==> news[i] == k[i];
    }
  }

  ghost predicate DistinctDirs(pending: seq<Path>) {
    forall i, j :: 0 <= i < j < |pending| ==> pending[i] != pending[j]
  }

  /** New directories take the place of the one that was popped. */
  lemma PendingStep(pending: seq<Path>, visited: set<Path>, more: seq<Path>)
    requires |pending| > 0 && DistinctDirs(pending) && DistinctDirs(more)
    requires forall p :: p in more ==> p !in pending && p !in visited
    requires forall p :: p in pending ==> p !in visited
    ensures var last := |pending| - 1;
            DistinctDirs(pending[..last] + more) && forall p :: p in pending[..last] + more ==>
              p !in visited + {pending[last]}
  {
    var last := |pending| - 1;
    var next := pending[..last] + more;
    forall i, j | 0 <= i < j < |next| ensures next[i] != next[j] {
      if j >= last {
        assert next[j] in more;
        if i < last {
          assert next[i] in pending;
        }
      }
    }
    forall p | p in next ensures p !in visited + {pending[last]} {
      if p !in more {
        var i :| 0 <= i < last && pending[i] == p;
      } else {
        assert pending[last] in pending;
      }
    }
  }

  lemma SoundStep(list: Listing, start: Path, recursive: bool, result: seq<Found>,
                  pending: seq<Path>, visited: set<Path>, news: seq<Found>)
    requires Sound(list, start, recursive, result, pending, visited) && |pending| > 0
    requires list(pending[|pending| - 1]).Some? && DistinctNames(list(pending[|pending| - 1]).value)
    requires news <= Kept(pending[|pending| - 1], list(pending[|pending| - 1]).value)
    ensures Sound(list, start, recursive, result + news,
                  pending[..|pending| - 1] + (if recursive then DirsIn(news) else []),
                  visited + {pending[|pending| - 1]})
  {
    hide Listed, Kept, DistinctNames, DirsIn, DistinctDirs, DistinctPaths, Known;
    var last := |pending| - 1;
    var more := if recursive then DirsIn(news) else [];
    NewsAreNew(list, start, recursive, result, pending, visited, news);
    DirsAreNew(start, recursive, result, pending, visited, news, more);
    PendingStep(pending, visited, more);
    forall p | p in pending[..last] ensures p in pending {
    }
    forall p | Known(start, recursive, result, p) ensures Known(start, recursive, result + news, p) {
      KnownLater(start, recursive, result, news, p);
    }
  }

  /** The directories among the new entries are new, and known from now on. */
  lemma DirsAreNew(start: Path, recursive: bool, result: seq<Found>, pending: seq<Path>, visited: set<Path>,
                   news: seq<Found>, more: seq<Path>)
    requires more == if recursive then DirsIn(news) else []
    requires DistinctPaths(result + news) && forall f :: f in news ==> f.path !in pending && f.path !in visited
    ensures DistinctDirs(more)
    ensures forall p :: p in more ==> p !in pending && p !in visited && Known(start, recursive, result + news, p)
  {
    assert DistinctPaths(news) by {
      assert forall i :: 0 <= i < |news| ==> news[i] == (result + news)[|result| + i];
    }
    DirsAre(news);
    hide DirsIn, DistinctPaths;
    forall p | p in more ensures p !in pending && p !in visited && Known(start, recursive, result + news, p) {
      assert Found(p, true) in news;
    }
  }

  lemma KnownLater(start: Path, recursive: bool, result: seq<Found>, news: seq<Found>, p: Path)
    requires Known(start, recursive, result, p)
    ensures Known(start, recursive, result + news, p)
  {
  }

  lemma CompleteStep(list: Listing, start: Path, recursive: bool, result: seq<Found>, pending: seq<Path>,
                     visited: set<Path>)
    requires Complete(list, start, recursive, result, pending, visited) && |pending| > 0
    requires list(pending[|pending| - 1]).Some?
    ensures var parent := pending[|pending| - 1];
            var news := Kept(parent, list(parent).value);
            Complete(list, start, recursive, result + news,
                     pending[..|pending| - 1] + (if recursive then DirsIn(news) else []), visited + {parent})
  {
    var parent := pending[|pending| - 1];
    var entries := list(parent).value;
    var news := Kept(parent, entries);
    hide Kept, DirsIn;
    KeptAre(parent, entries);
    DirsAre(news);
    assert pending == pending[..|pending| - 1] + [parent];
  }

  /** With nothing pending, everything that is listed has been found. */
  lemma {:induction false} AllFound(list: Listing, start: Path, recursive: bool, result: seq<Found>,
                                    visited: set<Path>, f: Found)
    requires Complete(list, start, recursive, result, [], visited) && Listed(list, start, recursive, f)
    ensures f in result && (recursive && f.isDir ==> f.path in visited)
    decreases |f.path|
  {
    var parent := f.path[..|f.path| - 1];
    if parent != start {
      AllFound(list, start, recursive, result, visited, Found(parent, true));
    }
    assert Child(list, parent, f);
  }

  /** List the files and directories under a start directory: never more than the cap, each once, and
      exactly all of them unless the cap was reached. An error names a directory that cannot be opened. */
  method Entries(list: Listing, start: Path, recursive: bool) returns (r: Result<seq<Found>>)
    requires forall p :: list(p).Some? ==> DistinctNames(list(p).value)
    ensures r.Ok? ==> |r.value| <= 1000 && DistinctPaths(r.value)
    ensures r.Ok? ==> forall f :: f in r.value ==> Listed(list, start, recursive, f)
    ensures r.Ok? && |r.value| < 1000 ==> forall f :: Listed(list, start, recursive, f) ==> f in r.value
    ensures r.Err? ==>
              || list(start).None?
              || exists f: Found :: recursive && f.isDir && Listed(list, start, recursive, f) && list(f.path).None?
  {
    hide Listed, Child, Kept, DistinctNames, DirsIn;
    var result: seq<Found>, pending := [], [start];
    ghost var visited := {};
    while pending != [] && |result| < MAX_ENTRIES
      invariant |result| <= MAX_ENTRIES && Sound(list, start, recursive, result, pending, visited)
      invariant |result| < MAX_ENTRIES ==> Complete(list, start, recursive, result, pending, visited)
      decreases MAX_ENTRIES - |result| + |pending|
    {
      var parent := pending[|pending| - 1];
      var listing := list(parent);
      if listing.None? {
        assert Known(start, recursive, result, parent);
        assert parent != start ==> Listed(list, start, recursive, Found(parent, true));
        return Err(NotFound);
      }
      var found, next := Scan(parent, listing.value, recursive, result, pending[..|pending| - 1]);
      ghost var news := found[|result|..];
      assert found == result + news;
      SoundStep(list, start, recursive, result, pending, visited, news);
      CompleteStep(list, start, recursive, result, pending, visited);
      DirsAreFew(news);
      result, pending := found, next;
      visited := visited + {parent};
    }
    if |result| < MAX_ENTRIES {
      forall f | Listed(list, start, recursive, f) ensures f in result {
        AllFound(list, start, recursive, result, visited, f);
      }
    }
    return Ok(result);
  }

  lemma {:induction false} DirsAreFew(found: seq<Found>)
    ensures |DirsIn(found)| <= |found|
  {
    if |found| == 0 {
    } else {
      DirsAreFew(found[..|found| - 1]);
    }
  }
}
