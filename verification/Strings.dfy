/** Whitespace and trimming as Python's string methods have them. */
module Strings {

  /** Characters that `str.strip` removes. */
  predicate IsSpace(c: char) {
    var n := c as int;
    9 <= n <= 13 || 28 <= n <= 32 || n == 0x85 || n == 0xA0 || n == 0x1680 || 0x2000 <= n <= 0x200A
    || n == 0x2028 || n == 0x2029 || n == 0x202F || n == 0x205F || n == 0x3000
  }

  predicate Blank(s: string) {
    forall i :: 0 <= i < |s| ==> IsSpace(s[i])
  }

  /** The characters that `str.strip` removes, one by one. */
  lemma SpacesAre(c: char)
    ensures IsSpace(c) <==>
              c as int in {9, 10, 11, 12, 13, 28, 29, 30, 31, 32, 133, 160, 5760, 8192, 8193, 8194, 8195, 8196, 8197,
                           8198, 8199, 8200, 8201, 8202, 8232, 8233, 8239, 8287, 12288}
  {
  }

  function TrimStart(s: string, drop: char -> bool): (r: string)
    ensures forall c :: c in r ==> c in s
    ensures |r| <= |s| && (r != "" ==> !drop(r[0]))
  {
    if |s| > 0 && drop(s[0]) then TrimStart(s[1..], drop) else s
  }

  function TrimEnd(s: string, drop: char -> bool): (r: string)
    ensures forall c :: c in r ==> c in s
    ensures r <= s && (r != "" ==> !drop(r[|r| - 1]))
  {
    if |s| > 0 && drop(s[|s| - 1]) then TrimEnd(s[..|s| - 1], drop) else s
  }

  function Stripped(s: string, drop: char -> bool): string {
    TrimEnd(TrimStart(s, drop), drop)
  }

  /** Exactly the leading characters to drop are gone. */
  lemma {:induction false} TrimStartIs(s: string, drop: char -> bool)
    ensures var r := TrimStart(s, drop);
            r == s[|s| - |r|..] && forall i :: 0 <= i < |s| - |r| ==> drop(s[i])
  {
    if |s| > 0 && drop(s[0]) {
      TrimStartIs(s[1..], drop);
    }
  }

  /** Exactly the trailing ones are. */
  lemma {:induction false} TrimEndIs(s: string, drop: char -> bool)
    ensures forall i :: |TrimEnd(s, drop)| <= i < |s| ==> drop(s[i])
  {
    if |s| > 0 && drop(s[|s| - 1]) {
      TrimEndIs(s[..|s| - 1], drop);
    }
  }

  /** `r` is what is left of `s` without the droppable characters at its ends, and only those. */
  ghost predicate Core(s: string, drop: char -> bool, r: string) {
    exists i, j :: CoreAt(s, drop, i, j) && s[i..j] == r
  }

  ghost predicate CoreAt(s: string, drop: char -> bool, i: int, j: int) {
    && 0 <= i <= j <= |s| && (forall k :: 0 <= k < i || j <= k < |s| ==> drop(s[k]))
    && (i < j ==> !drop(s[i]) && !drop(s[j - 1]))
  }

  lemma StrippedIsCore(s: string, drop: char -> bool)
    ensures Core(s, drop, Stripped(s, drop))
  {
    var t := TrimStart(s, drop);
    var r := TrimEnd(t, drop);
    hide TrimStart, TrimEnd, Core;
    TrimStartIs(s, drop);
    TrimEndIs(t, drop);
    InTwoSteps(s, drop, t, r);
  }

  lemma InTwoSteps(s: string, drop: char -> bool, t: string, r: string)
    requires |t| <= |s| && t == s[|s| - |t|..] && forall i :: 0 <= i < |s| - |t| ==> drop(s[i])
    requires r <= t && forall i :: |r| <= i < |t| ==> drop(t[i])
    requires (t != "" ==> !drop(t[0])) && (r != "" ==> !drop(r[|r| - 1]))
    ensures Core(s, drop, r)
  {
    var i := |s| - |t|;
    var j := i + |r|;
    assert s[i..j] == r;
    forall k | j <= k < |s| ensures drop(s[k]) {
      assert s[k] == t[k - i];
    }
    assert i < j ==> s[i] == t[0] && s[j - 1] == r[|r| - 1];
    assert CoreAt(s, drop, i, j);
  }

  lemma NothingToStrip(s: string, drop: char -> bool)
    requires s != "" && !drop(s[0]) && !drop(s[|s| - 1])
    ensures Stripped(s, drop) == s
  {
  }
}
