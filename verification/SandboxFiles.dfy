/** The file store of one process: live trees, immutable snapshots, uploads and the
    swap-with-rollback that restores a snapshot (sandbox_files.py). */
module SandboxFiles {
  import opened Wrappers

  type ChatId = string
  newtype Byte = b: int | 0 <= b < 256
  type Bytes = seq<Byte>
  /** Regular files by name. Uploads are the only writer, so the tree is flat. */
  type Tree = map<string, Bytes>

  datatype DirName = Files | Artifacts
  /** The directories that exist under a chat root. */
  type Dirs = map<DirName, Tree>

  /** What the runtime sees of a chat: an absent directory counts as an empty one. */
  datatype Trees = Trees(files: Tree, artifacts: Tree)

  const NAMES: seq<DirName> := [Files, Artifacts]

  function TreeOf(dirs: Dirs, name: DirName): Tree {
    if name in dirs then dirs[name] else map[]
  }

  function TreesOf(dirs: Dirs): Trees {
    Trees(TreeOf(dirs, Files), TreeOf(dirs, Artifacts))
  }

  function DirsOf(trees: Trees): Dirs {
    map[Files := trees.files, Artifacts := trees.artifacts]
  }

  datatype Metadata = NoMetadata | Corrupt | Version(n: int)

  /** A snapshot directory. Version 1 kept the user's files at the root and has no metadata. */
  datatype Snapshot = Snapshot(metadata: Metadata, root: Tree, dirs: Dirs)

  function Contents(s: Snapshot): Result<Trees> {
    match s.metadata
    case NoMetadata => Ok(Trees(s.root, map[]))
    case Corrupt => Err(Invalid)
    case Version(n) =>
      if n != 2 || Files !in s.dirs || Artifacts !in s.dirs then Err(Invalid)
      else Ok(TreesOf(s.dirs))
  }

  /** Case by case: a snapshot without metadata is the user's files alone, one of version 2 has both
      directories, and nothing else can be restored. */
  lemma ContentsAre(s: Snapshot)
    ensures Contents(s).Ok? <==> Complete(s)
    ensures s.metadata.NoMetadata? ==> DirsOf(Contents(s).value) == map[Files := s.root, Artifacts := map[]]
    ensures Complete(s) && s.metadata.Version? ==>
              DirsOf(Contents(s).value) == map[Files := s.dirs[Files], Artifacts := s.dirs[Artifacts]]
  {
  }

  ghost predicate Complete(s: Snapshot) {
    s.metadata.NoMetadata? || (s.metadata == Version(2) && Files in s.dirs && Artifacts in s.dirs)
  }

  /** Identifiers, character by character: no separator, dot or space can be in one. */
  lemma IdsAre(id: string)
    ensures IsSnapshotId(id) <==>
              |id| == 32 && forall i :: 0 <= i < |id| ==>
                id[i] in {'0', '1', '2', '3', '4', '5', '6', '7', '8', '9', 'a', 'b', 'c', 'd', 'e', 'f'}
    ensures IsChatId(id) <==>
              id != "" && forall i :: 0 <= i < |id| ==>
                id[i] in {'A', 'B', 'C', 'D', 'E', 'F', 'G', 'H', 'I', 'J', 'K', 'L', 'M',
                          'N', 'O', 'P', 'Q', 'R', 'S', 'T', 'U', 'V', 'W', 'X', 'Y', 'Z',
                          'a', 'b', 'c', 'd', 'e', 'f', 'g', 'h', 'i', 'j', 'k', 'l', 'm',
                          'n', 'o', 'p', 'q', 'r', 's', 't', 'u', 'v', 'w', 'x', 'y', 'z',
                          '0', '1', '2', '3', '4', '5', '6', '7', '8', '9', '_', '-'}
    ensures IsSnapshotId(id) ==> IsChatId(id)
  {
  }

  predicate IsSnapshotId(id: string) {
    |id| == 32 && forall i :: 0 <= i < |id| ==> '0' <= id[i] <= '9' || 'a' <= id[i] <= 'f'
  }

  predicate IsChatId(c: ChatId) {
    |c| > 0 && forall i :: 0 <= i < |c| ==>
                 'A' <= c[i] <= 'Z' || 'a' <= c[i] <= 'z' || '0' <= c[i] <= '9' || c[i] == '_' || c[i] == '-'
  }

  // ---- Sizes -------------------------------------------------------------------------

  ghost function Total(t: Tree): nat
    decreases |t|
  {
    if t == map[] then 0
    else
      var k :| k in t;
      |t[k]| + Total(t - {k})
  }

  lemma {:induction false} TotalRemove(t: Tree, k: string)
    requires k in t
    ensures Total(t) == |t[k]| + Total(t - {k})
    decreases |t|
  {
    var j :| j in t && Total(t) == |t[j]| + Total(t - {j});
    if j != k {
      TotalRemove(t - {j}, k);
      TotalRemove(t - {k}, j);
      assert t - {j} - {k} == t - {k} - {j};
    }
  }

  /** Writing one file changes the total by exactly the difference of the two sizes. */
  lemma TotalWrite(t: Tree, k: string, content: Bytes)
    ensures Total(t[k := content]) == Total(t) - |TreeEntry(t, k)| + |content|
  {
    var u := t[k := content];
    TotalRemove(u, k);
    assert u - {k} == t - {k};
    if k in t {
      TotalRemove(t, k);
    } else {
      assert t - {k} == t;
    }
  }

  function TreeEntry(t: Tree, k: string): Bytes {
    if k in t then t[k] else []
  }

  method TreeBytes(t: Tree) returns (n: nat)
    ensures n == Total(t)
  {
    n := 0;
    var rest := t;
    while rest != map[]
      invariant n + Total(rest) == Total(t)
      decreases |rest|
    {
      var k :| k in rest;
      TotalRemove(rest, k);
      n := n + |rest[k]|;
      rest := rest - {k};
    }
  }

  // ---- Free names --------------------------------------------------------------------

  function Decimal(n: nat): (s: string)
    ensures |s| > 0
  {
    if n < 10 then [('0' as int + n) as char] else Decimal(n / 10) + [('0' as int + n % 10) as char]
  }

  function DecimalValue(s: string): int {
    if |s| == 0 then 0 else DecimalValue(s[..|s| - 1]) * 10 + (s[|s| - 1] as int - '0' as int)
  }

  lemma {:induction false} DecimalRoundTrip(n: nat)
    ensures DecimalValue(Decimal(n)) == n
  {
    if n < 10 {
      assert Decimal(n)[..0] == "";
      assert DecimalValue("") == 0;
    } else {
      DecimalRoundTrip(n / 10);
      assert Decimal(n)[..|Decimal(n)| - 1] == Decimal(n / 10);
    }
  }

  /** The usual numeral of n: decimal digits without a leading zero. */
  ghost predicate IsNumeral(s: string, n: nat) {
    && s != "" && DecimalValue(s) == n && (n > 0 ==> s[0] != '0')
    && forall i :: 0 <= i < |s| ==> '0' <= s[i] <= '9'
  }

  lemma {:induction false} DecimalIs(n: nat)
    ensures IsNumeral(Decimal(n), n)
  {
    DecimalRoundTrip(n);
    if n >= 10 {
      DecimalIs(n / 10);
    }
  }

  /** The index of the last dot, or -1. */
  function LastDot(name: string): (i: int)
    ensures -1 <= i < |name|
    ensures i >= 0 ==> name[i] == '.'
    ensures forall j :: i < j < |name| ==> name[j] != '.'
  {
    if |name| == 0 then -1
    else if name[|name| - 1] == '.' then |name| - 1
    else LastDot(name[..|name| - 1])
  }

  function SplitAt(name: string): (i: nat)
    ensures i <= |name|
  {
    var i := LastDot(name);
    if 0 < i < |name| - 1 then i else |name|
  }

  function Infix(k: nat): string {
    " (" + Decimal(k + 1) + ")"
  }

  /** The k-th name tried for an upload: the name itself, then "stem (2)suffix", "stem (3)suffix", ... */
  function Candidate(name: string, k: nat): string {
    if k == 0 then name
    else name[..SplitAt(name)] + Infix(k) + name[SplitAt(name)..]
  }

  /** The number goes before the suffix, which starts at the last dot. */
  lemma CandidateWithSuffix(stem: string, suffix: string, k: nat) returns (number: string)
    requires k > 0 && stem != "" && |suffix| > 1 && suffix[0] == '.'
    requires forall i :: 0 < i < |suffix| ==> suffix[i] != '.'
    ensures IsNumeral(number, k + 1) && Candidate(stem + suffix, k) == stem + " (" + number + ")" + suffix
  {
    number := Decimal(k + 1);
    DecimalIs(k + 1);
    var name := stem + suffix;
    assert name[|stem|] == '.' && forall i :: 0 < i < |suffix| ==> name[|stem| + i] == suffix[i];
    assert LastDot(name) == |stem|;
    assert name[..|stem|] == stem && name[|stem|..] == suffix;
    hide Decimal, IsNumeral;
    assert stem + (" (" + number + ")") + suffix == stem + " (" + number + ")" + suffix;
  }

  /** A name without a suffix, be it that its only dots lead or its last one ends it, gets it at its end. */
  lemma CandidateWithoutSuffix(name: string, k: nat) returns (number: string)
    requires k > 0 && forall i :: 0 < i < |name| - 1 && name[i] == '.' ==>
               exists j :: i < j < |name| && name[j] == '.'
    ensures IsNumeral(number, k + 1) && Candidate(name, k) == name + " (" + number + ")"
  {
    number := Decimal(k + 1);
    DecimalIs(k + 1);
    assert SplitAt(name) == |name|;
    assert name[..|name|] == name && name[|name|..] == "";
    hide Decimal, IsNumeral;
    assert name + (" (" + number + ")") + "" == name + " (" + number + ")";
  }

  lemma InfixInjective(i: nat, j: nat)
    requires Infix(i) == Infix(j)
    ensures i == j
  {
    assert Infix(i)[2..|Infix(i)| - 1] == Decimal(i + 1);
    assert Infix(j)[2..|Infix(j)| - 1] == Decimal(j + 1);
    DecimalRoundTrip(i + 1);
    DecimalRoundTrip(j + 1);
  }

  lemma MiddleOf(head: string, x: string, tail: string)
    ensures var s := head + x + tail;
            |s| == |head| + |x| + |tail| && s[|head|..|s| - |tail|] == x
  {
  }

  lemma CandidatesDiffer(name: string, i: nat, j: nat)
    requires i < j
    ensures Candidate(name, i) != Candidate(name, j)
  {
    var head, tail := name[..SplitAt(name)], name[SplitAt(name)..];
    MiddleOf(head, Infix(j), tail);
    if i > 0 {
      MiddleOf(head, Infix(i), tail);
      if Candidate(name, i) == Candidate(name, j) {
        InfixInjective(i, j);
      }
    }
  }

  ghost function Tried(name: string, k: nat): set<string> {
    set j | 0 <= j < k :: Candidate(name, j)
  }

  lemma TriedStep(name: string, k: nat)
    ensures Tried(name, 0) == {}
    ensures Tried(name, k + 1) == Tried(name, k) + {Candidate(name, k)} && Candidate(name, k) !in Tried(name, k)
  {
    forall j | 0 <= j < k ensures Candidate(name, j) != Candidate(name, k) {
      CandidatesDiffer(name, j, k);
    }
    hide Candidate;
  }

  lemma {:induction false} TriedSize(name: string, k: nat)
    ensures |Tried(name, k)| == k
  {
    hide Tried, Candidate;
    if k == 0 {
      TriedStep(name, k);
    } else {
      TriedSize(name, k - 1);
      TriedStep(name, k - 1);
    }
  }

  lemma SubsetSize<T>(a: set<T>, b: set<T>)
    requires a <= b
    ensures |a| <= |b|
  {
    assert |b| == |a| + |b - a| by {
      assert a + (b - a) == b;
    }
  }

  /** Pigeonhole: if the first k names are all taken, the tree holds at least k files. */
  lemma TakenNamesAreFiles(tree: Tree, name: string, k: nat)
    requires forall j :: 0 <= j < k ==> Candidate(name, j) in tree
    ensures k <= |tree|
  {
    TriedSize(name, k);
    assert Tried(name, k) <= tree.Keys;
    SubsetSize(Tried(name, k), tree.Keys);
  }

  lemma {:induction false} FreeCandidateExists(tree: Tree, name: string, k: nat)
    requires forall j :: 0 <= j < k ==> Candidate(name, j) in tree
    ensures exists i: nat :: FirstFree(tree, name, i)
    decreases |tree| - k
  {
    TakenNamesAreFiles(tree, name, k);
    if Candidate(name, k) in tree {
      TakenNamesAreFiles(tree, name, k + 1);
      FreeCandidateExists(tree, name, k + 1);
    } else {
      assert FirstFree(tree, name, k);
    }
  }

  ghost predicate FirstFree(tree: Tree, name: string, k: nat) {
    Candidate(name, k) !in tree && forall j :: 0 <= j < k ==> Candidate(name, j) in tree
  }

  /** The name an upload that replaces nothing gets. */
  ghost function FreeName(tree: Tree, name: string): (free: string)
    ensures free !in tree
    ensures name !in tree ==> free == name
  {
    FreeCandidateExists(tree, name, 0);
    var k: nat :| FirstFree(tree, name, k);
    assert Candidate(name, 0) == name;
    Candidate(name, k)
  }

  /** The free-name search: it stops after at most one try more than there are files. */
  method UniqueDestination(tree: Tree, name: string) returns (candidate: string, ghost tries: nat)
    ensures candidate == FreeName(tree, name)
    ensures FirstFree(tree, name, tries) && candidate == Candidate(name, tries) && tries <= |tree|
  {
    candidate := name;
    tries := 0;
    var index := 2;
    while candidate in tree
      invariant index == tries + 2
      invariant candidate == Candidate(name, tries)
      invariant forall j :: 0 <= j < tries ==> Candidate(name, j) in tree
      invariant tries <= |tree|
      decreases |tree| - tries
    {
      TakenNamesAreFiles(tree, name, tries + 1);
      candidate := name[..SplitAt(name)] + (" (" + Decimal(index) + ")") + name[SplitAt(name)..];
      index := index + 1;
      tries := tries + 1;
    }
    assert FirstFree(tree, name, tries);
  }

  // ---- The store ---------------------------------------------------------------------

  class SandboxFiles {
    const maxFileBytes: nat
    const maxChatBytes: nat
    var live: map<ChatId, Dirs>
    var snapshots: map<ChatId, map<string, Snapshot>>

    constructor (maxFileBytes: nat, maxChatBytes: nat)
      ensures Valid() && live == map[] && snapshots == map[]
      ensures this.maxFileBytes == maxFileBytes && this.maxChatBytes == maxChatBytes
    {
      this.maxFileBytes, this.maxChatBytes := maxFileBytes, maxChatBytes;
      live, snapshots := map[], map[];
      new;
      assert Total(map[]) == 0;
    }

    ghost predicate Within(t: Tree) {
      Total(t) <= maxChatBytes && forall k :: k in t ==> |t[k]| <= maxFileBytes
    }

    /** Only well-formed chats have a directory. */
    ghost predicate Owned()
      reads this
    {
      forall c :: c in live || c in snapshots ==> IsChatId(c)
    }

    /** Every restorable snapshot obeys the upload limits. */
    ghost predicate SnapshotsWithin()
      reads this`snapshots
    {
      forall c, id :: c in snapshots && id in snapshots[c] && Contents(snapshots[c][id]).Ok? ==>
                        Within(Contents(snapshots[c][id]).value.files)
    }

    /** So does every live tree. */
    ghost predicate Valid()
      reads this
    {
      Owned() && SnapshotsWithin() && forall c :: Within(TreesAt(c).files)
    }

    function DirsAt(c: ChatId): Dirs
      reads this`live
    {
      if c in live then live[c] else map[]
    }

    function TreesAt(c: ChatId): Trees
      reads this`live
    {
      TreesOf(DirsAt(c))
    }

    function SnapshotsAt(c: ChatId): map<string, Snapshot>
      reads this`snapshots
    {
      if c in snapshots then snapshots[c] else map[]
    }

    /** The checks and the final rename of one upload into the tree `files`; nothing else is touched
        on failure because the copy is staged outside the tree. */
    method PlaceUpload(files: Tree, statSize: nat, copied: Option<Bytes>, name: string, replace: bool)
      returns (r: Result<string>)
      requires Within(files)
      ensures r.Ok? <==> Fits(files, statSize, copied, name, replace)
      ensures r.Ok? ==> Within(files[r.value := copied.value])
      ensures r.Ok? ==> r.value == if replace then name else FreeName(files, name)
    {
      var destination := name;
      if !replace {
        ghost var tries;
        destination, tries := UniqueDestination(files, name);
      }
      var currentSize := TreeBytes(files);
      TotalWrite(files, destination, []);
      var replacedSize := |TreeEntry(files, destination)|;
      if currentSize - replacedSize + statSize > maxChatBytes {
        return Err(Invalid);
      }
      if copied.None? {
        return Err(Interrupted);
      }
      var temporary := copied.value;
      if |temporary| > maxFileBytes {
        return Err(Invalid);
      }
      if currentSize - replacedSize + |temporary| > maxChatBytes {
        return Err(Invalid);
      }
      TotalWrite(files, destination, temporary);
      return Ok(destination);
    }

    /** The quota rule: a replaced file's bytes are given back, a fresh name gives none back. */
    ghost predicate Fits(files: Tree, statSize: nat, copied: Option<Bytes>, name: string, replace: bool) {
      && copied.Some?
      && |copied.value| <= maxFileBytes
      && var kept := Total(files) - (if replace then |TreeEntry(files, name)| else 0);
         kept + statSize <= maxChatBytes && kept + |copied.value| <= maxChatBytes
    }

    /** `statSize` is the source's size before the copy, `copied` the bytes the copy produced,
        `None` when the copy or the final rename fails. `name` is a plain file name. */
    method Upload(c: ChatId, statSize: nat, copied: Option<Bytes>, name: string, replace: bool)
      returns (r: Result<string>)
      requires Valid()
      modifies this`live
      ensures Valid()
      ensures forall d :: d != c ==> DirsAt(d) == old(DirsAt(d))
      ensures r.Err? ==> TreesAt(c) == old(TreesAt(c))
      ensures r.Ok? <==> IsChatId(c) && statSize <= maxFileBytes
                         && Fits(old(TreesAt(c)).files, statSize, copied, name, replace)
      ensures r.Ok? <==>
                && IsChatId(c) && copied.Some? && statSize <= maxFileBytes && |copied.value| <= maxFileBytes
                && var files := old(TreesAt(c)).files;
                   var kept := Total(files) - if replace && name in files then |files[name]| else 0;
                   kept + statSize <= maxChatBytes && kept + |copied.value| <= maxChatBytes
      ensures r.Ok? ==> TreesAt(c) == old(TreesAt(c)).(files := old(TreesAt(c)).files[r.value := copied.value])
      ensures r.Ok? ==> r.value == if replace then name else FreeName(old(TreesAt(c)).files, name)
    {
      if statSize > maxFileBytes {
        return Err(Invalid);
      }
      if !IsChatId(c) {
        return Err(Invalid);
      }
      var files := TreeOf(DirsAt(c), Files);
      assert files == TreesAt(c).files;
      live := live[c := DirsAt(c)[Files := files]];
      r := PlaceUpload(files, statSize, copied, name, replace);
      if r.Ok? {
        live := live[c := live[c][Files := files[r.value := copied.value]]];
      }
      forall d ensures Within(TreesAt(d).files) {
        assert old(Within(TreesAt(d).files));
      }
    }

    /** Copy both trees, an absent one as an empty directory. */
    method CopyTrees(c: ChatId, fault: Option<nat>) returns (copies: Dirs, ok: bool)
      ensures ok <==> fault.None? || fault.value >= 2
      ensures ok ==> copies == map[Files := if Files in DirsAt(c) then DirsAt(c)[Files] else map[],
                                   Artifacts := if Artifacts in DirsAt(c) then DirsAt(c)[Artifacts] else map[]]
    {
      copies := map[];
      var i := 0;
      while i < |NAMES|
        invariant 0 <= i <= 2
        invariant fault.Some? ==> i <= fault.value
        invariant forall j :: 0 <= j < i ==> NAMES[j] in copies && copies[NAMES[j]] == TreeOf(DirsAt(c), NAMES[j])
      {
        if fault == Some(i) {
          return copies, false;
        }
        copies := copies[NAMES[i] := TreeOf(DirsAt(c), NAMES[i])];
        i := i + 1;
      }
      assert NAMES[0] in copies && NAMES[1] in copies;
      SameDirs(copies, map[Files := TreeOf(DirsAt(c), Files), Artifacts := TreeOf(DirsAt(c), Artifacts)]);
      return copies, true;
    }

    /** `fault` is the index of the copy that fails; 2 is the metadata write. */
    method TakeSnapshot(c: ChatId, id: string, fault: Option<nat>) returns (r: Result<string>)
      requires Valid()
      requires IsSnapshotId(id) && id !in SnapshotsAt(c)
      modifies this`snapshots
      ensures Valid()
      ensures r.Ok? <==> IsChatId(c) && (fault.None? || fault.value > 2)
      ensures r.Err? ==> snapshots == old(snapshots)
      ensures r.Ok? ==> r.value == id && id in SnapshotsAt(c) && Contents(SnapshotsAt(c)[id]) == Ok(TreesAt(c))
      ensures r.Ok? ==> SnapshotsAt(c) == old(SnapshotsAt(c))[id := SnapshotsAt(c)[id]]
      ensures r.Ok? ==> && SnapshotsAt(c)[id].metadata == Version(2)
                        && SnapshotsAt(c)[id].dirs
                           == map[Files := if Files in DirsAt(c) then DirsAt(c)[Files] else map[],
                                  Artifacts := if Artifacts in DirsAt(c) then DirsAt(c)[Artifacts] else map[]]
      ensures forall d :: d != c ==> SnapshotsAt(d) == old(SnapshotsAt(d))
    {
      hide IsSnapshotId, IsChatId, Within;
      if !IsChatId(c) {
        return Err(Invalid);
      }
      var copies, ok := CopyTrees(c, fault);
      if !ok || fault == Some(2) {
        return Err(Interrupted);
      }
      var taken := Snapshot(Version(2), map[], copies);
      assert TreesOf(copies) == TreesAt(c);
      snapshots := snapshots[c := SnapshotsAt(c)[id := taken]];
      return Ok(id);
    }

    ghost predicate Restorable(c: ChatId, id: string)
      reads this`snapshots
    {
      IsChatId(c) && IsSnapshotId(id) && id in SnapshotsAt(c) && Contents(SnapshotsAt(c)[id]).Ok?
    }

    /** Copy every revision into the staging directory, before any live tree moves. */
    method StageRevisions(sources: Dirs, fault: Option<nat>) returns (revisions: Dirs, ok: bool)
      requires Files in sources && Artifacts in sources
      ensures ok <==> fault.None? || fault.value >= 2
      ensures ok ==> Files in revisions && Artifacts in revisions
                     && revisions[Files] == sources[Files] && revisions[Artifacts] == sources[Artifacts]
    {
      revisions := map[];
      var i := 0;
      while i < |NAMES|
        invariant 0 <= i <= 2
        invariant fault.Some? ==> i <= fault.value
        invariant forall j :: 0 <= j < i ==> NAMES[j] in revisions && revisions[NAMES[j]] == sources[NAMES[j]]
      {
        if fault == Some(i) {
          return revisions, false;
        }
        revisions := revisions[NAMES[i] := sources[NAMES[i]]];
        i := i + 1;
      }
      assert NAMES[0] in revisions && NAMES[1] in revisions;
      return revisions, true;
    }

    /** Move one live tree aside, if there is one, and its revision into place. */
    method InstallTree(c: ChatId, name: DirName, revision: Tree, asideFails: bool, placeFails: bool)
      returns (backup: Option<Tree>, ok: bool)
      modifies this`live
      ensures live - {c} == old(live) - {c}
      ensures forall n :: n != name ==> SameDir(n, old(DirsAt(c)), DirsAt(c))
      ensures backup.Some? ==> name in old(DirsAt(c)) && backup.value == old(DirsAt(c))[name]
      ensures ok ==> name in DirsAt(c) && DirsAt(c)[name] == revision && (backup.None? ==> name !in old(DirsAt(c)))
      ensures !ok ==> if backup.Some? then name !in DirsAt(c) else SameDir(name, old(DirsAt(c)), DirsAt(c))
      ensures !asideFails && !placeFails ==> ok
    {
      backup := None;
      if name in DirsAt(c) {
        if asideFails {
          return backup, false;
        }
        backup := Some(DirsAt(c)[name]);
        live := live[c := DirsAt(c) - {name}];
      }
      if placeFails {
        return backup, false;
      }
      live := live[c := DirsAt(c)[name := revision]];
      return backup, true;
    }

    /** Move each live tree aside and its revision into place. A failing rename (2, 4 aside;
        3, 5 into place) stops at once and leaves the half-done swap described by `SwapState`. */
    method Install(c: ChatId, revisions: Dirs, fault: Option<nat>)
      returns (installed: set<DirName>, backups: Dirs, ok: bool)
      requires Files in revisions && Artifacts in revisions
      modifies this`live
      ensures live - {c} == old(live) - {c}
      ensures Swapping(installed, old(DirsAt(c)), DirsAt(c), backups, revisions)
      ensures ok ==> Files in installed && Artifacts in installed
      ensures fault.None? ==> ok
    {
      hide DirsAt;
      installed, backups := {}, map[];
      var i := 0;
      while i < |NAMES|
        invariant 0 <= i <= 2
        invariant live - {c} == old(live) - {c}
        invariant forall j :: 0 <= j < i ==> NAMES[j] in installed
        invariant forall j :: i <= j < 2 ==> NAMES[j] !in installed && NAMES[j] !in backups
        invariant Swapping(installed, old(DirsAt(c)), DirsAt(c), backups, revisions)
      {
        var name := NAMES[i];
        ghost var was, aside := DirsAt(c), backups;
        ghost var other := if name.Files? then Artifacts else Files;
        assert NAMES[0] == Files && NAMES[1] == Artifacts;
        assert SwapState(name, false, old(DirsAt(c)), was, backups, revisions);
        var backup;
        backup, ok := InstallTree(c, name, revisions[name], fault == Some(2 + 2 * i), fault == Some(3 + 2 * i));
        if backup.Some? {
          backups := backups[name := backup.value];
        }
        assert SwapState(name, ok, old(DirsAt(c)), DirsAt(c), backups, revisions);
        SwapKept(other, other in installed, old(DirsAt(c)), was, DirsAt(c), aside, backups, revisions);
        if !ok {
          return;
        }
        installed := installed + {name};
        i := i + 1;
      }
      assert NAMES[0] in installed && NAMES[1] in installed;
      ok := true;
    }

    /** Undo the swap of one directory: drop what was installed, move its backup back. */
    method PutBack(c: ChatId, name: DirName, installed: bool, backups: Dirs)
      modifies this`live
      ensures live - {c} == old(live) - {c}
      ensures forall n :: n != name ==> SameDir(n, old(DirsAt(c)), DirsAt(c))
      ensures name in backups ==> SameDir(name, backups, DirsAt(c))
      ensures name !in backups ==> if installed then name !in DirsAt(c) else SameDir(name, old(DirsAt(c)), DirsAt(c))
    {
      if installed {
        live := live[c := DirsAt(c) - {name}];
      }
      if name in backups {
        live := live[c := DirsAt(c)[name := backups[name]]];
      }
    }

    /** Undo a half-done swap, last name first. */
    method RollBack(c: ChatId, installed: set<DirName>, backups: Dirs, ghost before: Dirs, ghost revisions: Dirs)
      requires Swapping(installed, before, DirsAt(c), backups, revisions)
      modifies this`live
      ensures live - {c} == old(live) - {c}
      ensures DirsAt(c) == before
    {
      var i := |NAMES|;
      while i > 0
        invariant 0 <= i <= 2
        invariant live - {c} == old(live) - {c}
        invariant forall j :: 0 <= j < i ==>
                    SwapState(NAMES[j], NAMES[j] in installed, before, DirsAt(c), backups, revisions)
        invariant forall j :: i <= j < 2 ==> SameDir(NAMES[j], before, DirsAt(c))
      {
        i := i - 1;
        ghost var was := DirsAt(c);
        PutBack(c, NAMES[i], NAMES[i] in installed, backups);
        assert forall j :: 0 <= j < 2 && j != i ==> SameDir(NAMES[j], was, DirsAt(c));
      }
      assert SameDir(NAMES[0], before, DirsAt(c)) && SameDir(NAMES[1], before, DirsAt(c));
      SameDirs(before, DirsAt(c));
    }

    /** Swap both live trees for these, or leave both as they were. `fault` numbers the six file
        operations that may fail: the two copies, then for each name the two renames. */
    method Swap(c: ChatId, trees: Trees, fault: Option<nat>) returns (ok: bool)
      modifies this`live
      ensures live - {c} == old(live) - {c}
      ensures DirsAt(c) == if ok then DirsOf(trees) else old(DirsAt(c))
      ensures fault.None? ==> ok
    {
      hide DirsOf;
      SourcesOf(trees);
      ghost var before := DirsAt(c);
      var revisions, staged := StageRevisions(DirsOf(trees), fault);
      if !staged {
        return false;
      }
      var installed, backups;
      installed, backups, ok := Install(c, revisions, fault);
      if ok {
        SameDirs(DirsAt(c), DirsOf(trees));
      } else {
        RollBack(c, installed, backups, before, revisions);
      }
    }

    lemma SourcesOf(trees: Trees)
      ensures Files in DirsOf(trees) && Artifacts in DirsOf(trees)
    {
    }

    /** Swap both trees for the snapshot's, all or nothing. */
    method RestoreSnapshot(c: ChatId, id: string, fault: Option<nat>) returns (r: Result<()>)
      requires Valid()
      modifies this`live
      ensures Valid()
      ensures forall d :: d != c ==> DirsAt(d) == old(DirsAt(d))
      ensures r.Ok? ==> Restorable(c, id) && DirsAt(c) == DirsOf(Contents(SnapshotsAt(c)[id]).value)
      ensures r.Err? ==> DirsAt(c) == old(DirsAt(c))
      ensures Restorable(c, id) && fault.None? ==> r.Ok?
      ensures r.Ok? ==>
                && id in SnapshotsAt(c)
                && var s := SnapshotsAt(c)[id];
                   match s.metadata
                   case NoMetadata => DirsAt(c) == map[Files := s.root, Artifacts := map[]]
                   case Version(n) =>
                     && n == 2 && Files in s.dirs && Artifacts in s.dirs
                     && DirsAt(c) == map[Files := s.dirs[Files], Artifacts := s.dirs[Artifacts]]
                   case Corrupt => false
      ensures fault.None? ==>
                (r.Ok? <==> IsChatId(c) && IsSnapshotId(id) && id in SnapshotsAt(c) && Complete(SnapshotsAt(c)[id]))
    {
      hide Contents, IsSnapshotId, IsChatId, Within;
      if !IsSnapshotId(id) || !IsChatId(c) {
        return Err(Invalid);
      }
      if id !in SnapshotsAt(c) {
        return Err(NotFound);
      }
      ContentsAre(SnapshotsAt(c)[id]);
      var contents := Contents(SnapshotsAt(c)[id]);
      if contents.Err? {
        return Err(contents.error);
      }
      ghost var rest := live - {c};
      var ok := Swap(c, contents.value, fault);
      KeepOthers(c, rest);
      assert forall d :: d in live ==> d == c || d in rest;
      assert ok ==> TreesAt(c) == contents.value;
      forall d ensures Within(TreesAt(d).files) {
        assert old(Within(TreesAt(d).files));
      }
      return if ok then Ok(()) else Err(Interrupted);
    }

    /** Only chat c's directories differ, so every other chat's are what they were. */
    lemma KeepOthers(c: ChatId, rest: map<ChatId, Dirs>)
      requires live - {c} == rest
      ensures forall d :: d != c ==> DirsAt(d) == (if d in rest then rest[d] else map[])
    {
      forall d | d != c ensures DirsAt(d) == (if d in rest then rest[d] else map[]) {
        assert d in live <==> d in rest;
      }
    }

    method DeleteChat(c: ChatId) returns (r: Result<()>)
      requires Valid()
      modifies this`live, this`snapshots
      ensures Valid()
      ensures r.Ok? <==> IsChatId(c)
      ensures r.Ok? ==> live == old(live) - {c} && snapshots == old(snapshots) - {c}
      ensures r.Err? ==> live == old(live) && snapshots == old(snapshots)
    {
      if !IsChatId(c) {
        return Err(Invalid);
      }
      live := live - {c};
      snapshots := snapshots - {c};
      return Ok(());
    }
  }

  ghost predicate SameDir(name: DirName, a: Dirs, b: Dirs) {
    (name in a <==> name in b) && (name in a ==> a[name] == b[name])
  }

  lemma SameDirs(a: Dirs, b: Dirs)
    requires SameDir(Files, a, b) && SameDir(Artifacts, a, b)
    ensures a == b
  {
    OnlyTwoNames(a);
    OnlyTwoNames(b);
    assert a.Keys == b.Keys;
  }

  lemma OnlyTwoNames(a: Dirs)
    ensures a.Keys == set n | n in [Files, Artifacts] && n in a
  {
    forall n | n in a.Keys ensures n in [Files, Artifacts] {
      assert [Files, Artifacts][0] == Files && [Files, Artifacts][1] == Artifacts;
      match n
      case Files =>
      case Artifacts =>
    }
  }

  ghost predicate Swapping(installed: set<DirName>, before: Dirs, now: Dirs, backups: Dirs, sources: Dirs) {
    && SwapState(Files, Files in installed, before, now, backups, sources)
    && SwapState(Artifacts, Artifacts in installed, before, now, backups, sources)
  }

  /** Where one directory of the swap stands: installed with its predecessor set aside, set
      aside only, or untouched. */
  ghost predicate SwapState(name: DirName, installed: bool, before: Dirs, now: Dirs, backups: Dirs, sources: Dirs) {
    if installed then
      SameDir(name, before, backups) && name in now && name in sources && now[name] == sources[name]
    else if name in backups then
      SameDir(name, before, backups) && name !in now
    else
      SameDir(name, before, now)
  }

  /** What happens to the other directory does not matter. */
  lemma SwapKept(name: DirName, installed: bool, before: Dirs, was: Dirs, now: Dirs, backups: Dirs, backups': Dirs,
                 sources: Dirs)
    requires SwapState(name, installed, before, was, backups, sources)
    requires SameDir(name, was, now) && SameDir(name, backups, backups')
    ensures SwapState(name, installed, before, now, backups', sources)
  {
  }
}
