/**
  The string rewriters behind typeDemangle: replaceString, which may lengthen the string it searches and does not
  advance past what it has written, and removeParameter, which cuts out template arguments by matching brackets.
 */
module TypeDemangler {
  import opened Options

  // ----- Searching -----

  predicate At(s: string, pattern: string, i: nat) {
    i + |pattern| <= |s| && s[i..i + |pattern|] == pattern
  }

  ghost predicate Contains(s: string, pattern: string) {
    exists i: nat :: At(s, pattern, i)
  }

  /** std::string::find: the first occurrence at or after pos. */
  function Find(s: string, pattern: string, pos: nat): (r: Option<nat>)
    ensures r.Some? ==> pos <= r.value && At(s, pattern, r.value) && forall i :: pos <= i < r.value ==> !At(s, pattern, i)
    ensures r.None? ==> forall i :: pos <= i ==> !At(s, pattern, i)
    decreases |s| - pos
  {
    if pos > |s| then None
    else if At(s, pattern, pos) then Some(pos)
    else Find(s, pattern, pos + 1)
  }

  function Replace(s: string, i: nat, length: nat, to: string): string
    requires i + length <= |s|
  {
    s[..i] + to + s[i + length..]
  }

  // ----- replaceString -----

  /** Every occurrence from pos on reaches into the last `kept` characters. */
  ghost predicate ReachesKept(s: string, from: string, pos: nat, kept: nat) {
    kept <= |s| && forall i :: pos <= i && At(s, from, i) ==> i + |from| > |s| - kept
  }

  lemma InsideTheNew(s: string, from: string, to: string, i: nat, j: nat)
    requires At(s, from, i) && i <= j && j + |from| <= i + |to| && At(Replace(s, i, |from|, to), from, j)
    ensures At(to, from, j - i)
  {
    assert Replace(s, i, |from|, to)[j..j + |from|] == to[j - i..j - i + |from|];
  }

  /** After a replacement the characters not yet rewritten are fewer, although the string may be longer. */
  lemma KeptShrinks(s: string, from: string, to: string, pos: nat, kept: nat, i: nat)
    requires !Contains(to, from) && ReachesKept(s, from, pos, kept) && pos <= i && At(s, from, i)
    ensures |s| - (i + |from|) < kept
    ensures ReachesKept(Replace(s, i, |from|, to), from, i, |s| - (i + |from|))
  {
    var s1, kept1 := Replace(s, i, |from|, to), |s| - (i + |from|);
    forall j | i <= j && At(s1, from, j) ensures j + |from| > |s1| - kept1 {
      if j + |from| <= i + |to| {
        InsideTheNew(s, from, to, i, j);
      }
    }
  }

  /** What replaceString makes of s, looking from pos on. */
  function Rewrite(s: string, from: string, to: string, pos: nat, kept: nat): string
    requires !Contains(to, from) && ReachesKept(s, from, pos, kept)
    decreases kept
  {
    match Find(s, from, pos)
    case None => s
    case Some(i) =>
      KeptShrinks(s, from, to, pos, kept, i);
      Rewrite(Replace(s, i, |from|, to), from, to, i, |s| - (i + |from|))
  }

  lemma ReachesAll(s: string, from: string, to: string)
    requires !Contains(to, from)
    ensures ReachesKept(s, from, 0, |s|)
  {
    if |from| == 0 {
      assert At(to, from, 0);
    }
  }

  function Replaced(s: string, from: string, to: string): string
    requires !Contains(to, from)
  {
    ReachesAll(s, from, to);
    Rewrite(s, from, to, 0, |s|)
  }

  method ReplaceString(s: string, from: string, to: string) returns (demangledName: string)
    requires !Contains(to, from)
    ensures demangledName == Replaced(s, from, to)
  {
    ReachesAll(s, from, to);
    demangledName := s;
    var pos: Option<nat> := Find(demangledName, from, 0);
    ghost var start: nat, kept: nat := 0, |s|;
    while pos.Some?
      invariant ReachesKept(demangledName, from, start, kept) && pos == Find(demangledName, from, start)
      invariant Rewrite(demangledName, from, to, start, kept) == Rewrite(s, from, to, 0, |s|)
      decreases kept
    {
      KeptShrinks(demangledName, from, to, start, kept, pos.value);
      start, kept := pos.value, |demangledName| - (pos.value + |from|);
      demangledName := Replace(demangledName, pos.value, |from|, to);
      pos := Find(demangledName, from, pos.value);
    }
  }

  // ----- When nothing is left to replace -----

  /** Writing `to` over an occurrence of `from` cannot complete an occurrence that starts k characters further left,
      unless there was one there already. */
  predicate NoneFromTheLeft(from: string, to: string, k: nat)
    requires 0 < k < |from|
  {
    var m := if |to| < |from| - k then |to| else |from| - k;
    from[k..k + m] == to[..m] ==> m == |from| - k && from[k..] == from[..m]
  }

  predicate Normalising(from: string, to: string) {
    forall k :: 0 < k < |from| ==> NoneFromTheLeft(from, to, k)
  }

  lemma AtChar(s: string, pattern: string, i: nat, k: nat)
    requires At(s, pattern, i) && k < |pattern|
    ensures s[i + k] == pattern[k]
  {
    assert s[i..i + |pattern|][k] == s[i + k];
  }

  lemma NothingToTheLeft(s: string, from: string, to: string, i: nat, j: nat)
    requires At(s, from, i) && j < i && Normalising(from, to)
    requires At(Replace(s, i, |from|, to), from, j)
    ensures At(s, from, j)
  {
    var s1 := Replace(s, i, |from|, to);
    if j + |from| <= i {
      assert s1[j..j + |from|] == s[j..j + |from|];
    } else {
      var k := i - j;
      var m := if |to| < |from| - k then |to| else |from| - k;
      assert NoneFromTheLeft(from, to, k);
      forall c | 0 <= c < m ensures from[k + c] == to[c] {
        AtChar(s1, from, j, k + c);
      }
      assert from[k..k + m] == to[..m];
      forall c | 0 <= c < |from| ensures s[j + c] == from[c] {
        if c < k {
          AtChar(s1, from, j, c);
        } else {
          AtChar(s, from, i, c - k);
          assert from[k..][c - k] == from[..m][c - k];
        }
      }
    }
  }

  /** Then the result contains no occurrence at all, also of those the replacements bring about. */
  lemma {:induction false} NormalisingLeavesNone(s: string, from: string, to: string, pos: nat, kept: nat)
    requires !Contains(to, from) && ReachesKept(s, from, pos, kept) && Normalising(from, to)
    requires forall j :: 0 <= j < pos ==> !At(s, from, j)
    ensures !Contains(Rewrite(s, from, to, pos, kept), from)
    decreases kept
  {
    match Find(s, from, pos)
    case None =>
    case Some(i) =>
      KeptShrinks(s, from, to, pos, kept, i);
      var s1 := Replace(s, i, |from|, to);
      forall j | 0 <= j < i ensures !At(s1, from, j) {
        if At(s1, from, j) {
          NothingToTheLeft(s, from, to, i, j);
        }
      }
      NormalisingLeavesNone(s1, from, to, i, |s| - (i + |from|));
  }

  lemma ReplacedHasNone(s: string, from: string, to: string)
    requires !Contains(to, from) && Normalising(from, to)
    ensures !Contains(Replaced(s, from, to), from)
  {
    ReachesAll(s, from, to);
    NormalisingLeavesNone(s, from, to, 0, |s|);
  }

  // ----- The calls -----

  const COMMA_SPACE := ", "
  const COMMA := ","
  const SPACE_BRACKET := " ["
  const BRACKET := "["
  const INLINE_1 := "std::__1::"
  const INLINE_CXX11 := "std::__cxx11::"
  const STD := "std::"
  const CLOSE_CLOSE := ">>"
  const CLOSE_SPACE_CLOSE := "> >"
  const UNSIGNED_LONG_LONG := "unsigned long long"
  const ULONG64 := "ULong64_t"
  const LONG_LONG := "long long"
  const LONG64 := "Long64_t"

  /** All pairs that typeDemangle passes on. */
  const CALLS: seq<(string, string)> := [
    (COMMA_SPACE, COMMA), (SPACE_BRACKET, BRACKET), (INLINE_1, STD), (INLINE_CXX11, STD),
    (CLOSE_CLOSE, CLOSE_SPACE_CLOSE), (UNSIGNED_LONG_LONG, ULONG64), (LONG_LONG, LONG64)]

  /** A shorter string contains no longer one, and a string without the pattern's first character does not contain it. */
  lemma ContainsNeeds(s: string, pattern: string)
    requires |pattern| > 0 && Contains(s, pattern)
    ensures |pattern| <= |s| && forall k :: 0 <= k < |pattern| ==> pattern[k] in s
  {
    var i: nat :| At(s, pattern, i);
    forall k | 0 <= k < |pattern| ensures pattern[k] in s {
      assert s[i..i + |pattern|][k] == s[i + k];
    }
  }

  /** replaceString may be called with each pair. */
  lemma CallsMayBeMade(c: (string, string))
    requires c in CALLS
    ensures !Contains(c.1, c.0)
  {
    if c == (CLOSE_CLOSE, CLOSE_SPACE_CLOSE) {
      forall i: nat ensures !At(CLOSE_SPACE_CLOSE, CLOSE_CLOSE, i) {
        if At(CLOSE_SPACE_CLOSE, CLOSE_CLOSE, i) {
          AtChar(CLOSE_SPACE_CLOSE, CLOSE_CLOSE, i, 0);
          AtChar(CLOSE_SPACE_CLOSE, CLOSE_CLOSE, i, 1);
        }
      }
    } else if Contains(c.1, c.0) {
      ContainsNeeds(c.1, c.0);
    }
  }

  lemma NormalisingByFirst(from: string, to: string)
    requires |from| > 0 && |to| > 0 && to[0] !in from[1..]
    ensures Normalising(from, to)
  {
    forall k | 0 < k < |from| ensures NoneFromTheLeft(from, to, k) {
      var m := if |to| < |from| - k then |to| else |from| - k;
      assert from[k..k + m][0] == from[1..][k - 1] && to[..m][0] == to[0];
    }
  }

  /** All calls leave nothing to replace, except the one for " [". */
  lemma CallsNormalise(c: (string, string))
    requires c in CALLS
    ensures c.0 != SPACE_BRACKET <==> Normalising(c.0, c.1)
  {
    if c.0 == SPACE_BRACKET {
      assert SPACE_BRACKET[1..2] == BRACKET[..1] && SPACE_BRACKET[1..][0] != SPACE_BRACKET[..1][0];
      assert !NoneFromTheLeft(SPACE_BRACKET, BRACKET, 1);
    } else if c.0 == CLOSE_CLOSE {
      assert CLOSE_CLOSE[1..] == CLOSE_CLOSE[..1];
      assert NoneFromTheLeft(CLOSE_CLOSE, CLOSE_SPACE_CLOSE, 1);
    } else {
      NormalisingByFirst(c.0, c.1);
    }
  }

  // ----- What each call makes, in one pass -----

  lemma AtDrop(s: string, pattern: string, pos: nat, j: nat)
    requires pos <= |s|
    ensures At(s[pos..], pattern, j) <==> At(s, pattern, pos + j)
  {
    if pos + j + |pattern| <= |s| {
      assert s[pos..][j..j + |pattern|] == s[pos + j..pos + j + |pattern|];
    }
  }

  /** A space is put between each two closing angle brackets. */
  function Spaced(t: string): string {
    if t == "" then ""
    else if At(t, CLOSE_CLOSE, 0) then "> " + Spaced(t[1..])
    else [t[0]] + Spaced(t[1..])
  }

  lemma {:induction false} SpacedSkips(t: string, i: nat)
    requires i <= |t| && forall j :: 0 <= j < i ==> !At(t, CLOSE_CLOSE, j)
    ensures Spaced(t) == t[..i] + Spaced(t[i..])
    decreases i
  {
    if i == 0 {
      assert t[0..] == t;
    } else {
      forall j | 0 <= j < i - 1 ensures !At(t[1..], CLOSE_CLOSE, j) {
        AtDrop(t, CLOSE_CLOSE, 1, j);
      }
      SpacedSkips(t[1..], i - 1);
      assert t[1..][i - 1..] == t[i..];
      assert Spaced(t) == [t[0]] + Spaced(t[1..]);
      assert t[..i] == [t[0]] + t[1..][..i - 1];
    }
  }

  lemma Pieces(s: string, pos: nat, i: nat, length: nat, to: string)
    requires pos <= i && i + length <= |s|
    ensures var s1 := Replace(s, i, length, to);
            i <= |s1| && s1[..i] == s[..pos] + s[pos..][..i - pos] && s1[i..] == to + s[i + length..]
    ensures s[pos..][i - pos..] == s[i..]
  {
  }

  lemma NoneBefore(s: string, pattern: string, pos: nat, i: nat)
    requires pos <= i <= |s| && forall j :: pos <= j < i ==> !At(s, pattern, j)
    ensures forall j :: 0 <= j < i - pos ==> !At(s[pos..], pattern, j)
  {
    forall j: nat | j < i - pos ensures !At(s[pos..], pattern, j) {
      AtDrop(s, pattern, pos, j);
    }
  }

  lemma ClosesMeet(t: string)
    requires At(t, CLOSE_CLOSE, 0)
    ensures Spaced(CLOSE_SPACE_CLOSE + t[2..]) == Spaced(t)
  {
    AtChar(t, CLOSE_CLOSE, 0, 1);
    assert t[1..] == ">" + t[2..];
    SpacedStep(t[2..]);
  }

  lemma CloseStep(s: string, pos: nat, i: nat)
    requires pos <= i && At(s, CLOSE_CLOSE, i) && forall j :: pos <= j < i ==> !At(s, CLOSE_CLOSE, j)
    ensures var s1 := Replace(s, i, 2, CLOSE_SPACE_CLOSE);
            s1[..i] + Spaced(s1[i..]) == s[..pos] + Spaced(s[pos..])
  {
    var a, b := s[..pos], s[pos..][..i - pos];
    NoneBefore(s, CLOSE_CLOSE, pos, i);
    SpacedSkips(s[pos..], i - pos);
    Pieces(s, pos, i, 2, CLOSE_SPACE_CLOSE);
    AtDrop(s, CLOSE_CLOSE, i, 0);
    ClosesMeet(s[i..]);
    assert s[i..][2..] == s[i + 2..];
    assert (a + b) + Spaced(s[i..]) == a + (b + Spaced(s[i..]));
  }

  // Pairs whose replacement cannot be the beginning of another occurrence.

  /** Each occurrence, from the left and without overlaps, becomes `to`. */
  function OnePass(t: string, from: string, to: string): string
    requires |from| > 0
  {
    if t == "" then ""
    else if At(t, from, 0) then to + OnePass(t[|from|..], from, to)
    else [t[0]] + OnePass(t[1..], from, to)
  }

  lemma {:induction false} OnePassSkips(t: string, from: string, to: string, i: nat)
    requires |from| > 0 && i <= |t| && forall j :: 0 <= j < i ==> !At(t, from, j)
    ensures OnePass(t, from, to) == t[..i] + OnePass(t[i..], from, to)
    decreases i
  {
    if i == 0 {
      assert t[0..] == t;
    } else {
      forall j | 0 <= j < i - 1 ensures !At(t[1..], from, j) {
        AtDrop(t, from, 1, j);
      }
      OnePassSkips(t[1..], from, to, i - 1);
      assert t[1..][i - 1..] == t[i..];
      assert OnePass(t, from, to) == [t[0]] + OnePass(t[1..], from, to);
      assert t[..i] == [t[0]] + t[1..][..i - 1];
    }
  }

  lemma FirstCharacter(s: string, pattern: string, i: nat)
    requires |pattern| > 0
    ensures At(s, pattern, i) ==> i < |s| && s[i] == pattern[0]
  {
    if At(s, pattern, i) { AtChar(s, pattern, i, 0); }
  }

  lemma OnePassAt(t: string, from: string, to: string)
    requires |from| > 0 && At(t, from, 0)
    ensures OnePass(t, from, to) == to + OnePass(t[|from|..], from, to)
  {
  }

  lemma OnePassOver(rest: string, from: string, to: string)
    requires |from| > 0 && from[0] !in to
    ensures OnePass(to + rest, from, to) == to + OnePass(rest, from, to)
  {
    var w := to + rest;
    forall j | 0 <= j < |to| ensures !At(w, from, j) {
      FirstCharacter(w, from, j);
    }
    OnePassSkips(w, from, to, |to|);
    assert w[..|to|] == to && w[|to|..] == rest;
  }

  lemma OnePassStep(s: string, from: string, to: string, pos: nat, i: nat)
    requires |from| > 0 && from[0] !in to && pos <= i && At(s, from, i) && forall j :: pos <= j < i ==> !At(s, from, j)
    ensures var s1 := Replace(s, i, |from|, to);
            s1[..i] + OnePass(s1[i..], from, to) == s[..pos] + OnePass(s[pos..], from, to)
  {
    hide *;
    SplitAt(s, from, pos, i);
    Pieces(s, pos, i, |from|, to);
    var s1, b, rest := Replace(s, i, |from|, to), s[pos..][..i - pos], s[i + |from|..];
    assert OnePass(s1[i..], from, to) == to + OnePass(rest, from, to) by {
      OnePassOver(rest, from, to);
    }
    assert OnePass(s[pos..], from, to) == b + (to + OnePass(rest, from, to)) by {
      NoneBefore(s, from, pos, i);
      AtDrop(s, from, i, 0);
      OnePassSkips(s[pos..], from, to, i - pos);
      OnePassAt(s[i..], from, to);
    }
    Regroup(s[..pos], b, to + OnePass(rest, from, to));
  }

  lemma SplitAt(s: string, from: string, pos: nat, i: nat)
    requires pos <= i && At(s, from, i)
    ensures i + |from| <= |s|
    ensures s[pos..][i - pos..] == s[i..] && s[i..][|from|..] == s[i + |from|..] && s[i..] == from + s[i + |from|..]
    ensures i < |s| ==> s[pos..][i - pos] == s[i]
  {
  }

  lemma Regroup(a: string, b: string, c: string)
    ensures (a + b) + c == a + (b + c)
  {
  }

  lemma OnePassRest(s: string, from: string, to: string, pos: nat)
    requires |from| > 0 && pos <= |s| && forall i :: pos <= i ==> !At(s, from, i)
    ensures s == s[..pos] + OnePass(s[pos..], from, to)
  {
    var t := s[pos..];
    forall j: nat ensures !At(t, from, j) {
      AtDrop(s, from, pos, j);
    }
    OnePassSkips(t, from, to, |t|);
  }

  lemma {:induction false} RewriteIsOnePass(s: string, from: string, to: string, pos: nat, kept: nat)
    requires !Contains(to, from) && ReachesKept(s, from, pos, kept) && pos <= |s| && |from| > 0 && from[0] !in to
    ensures Rewrite(s, from, to, pos, kept) == s[..pos] + OnePass(s[pos..], from, to)
    decreases kept
  {
    match Find(s, from, pos)
    case None => OnePassRest(s, from, to, pos);
    case Some(i) =>
      KeptShrinks(s, from, to, pos, kept, i);
      RewriteIsOnePass(Replace(s, i, |from|, to), from, to, i, |s| - (i + |from|));
      OnePassStep(s, from, to, pos, i);
  }

  /** When the first character of `from` is not in `to`, replaceString is one pass from the left. */
  lemma FreshPairIsOnePass(s: string, from: string, to: string)
    requires !Contains(to, from) && |from| > 0 && from[0] !in to
    ensures Replaced(s, from, to) == OnePass(s, from, to)
  {
    ReachesAll(s, from, to);
    RewriteIsOnePass(s, from, to, 0, |s|);
    assert s[0..] == s && s[..0] + OnePass(s, from, to) == OnePass(s, from, to);
  }

  // Pairs whose replacement is the beginning of what it replaces.

  function DropAll(u: string, extra: string): string
    requires |extra| > 0
  {
    if At(u, extra, 0) then DropAll(u[|extra|..], extra) else u
  }

  lemma {:induction false} DropAllShrinks(u: string, extra: string)
    requires |extra| > 0
    ensures |DropAll(u, extra)| <= |u|
    decreases |u|
  {
    if At(u, extra, 0) {
      DropAllShrinks(u[|extra|..], extra);
    }
  }

  /** After every `to`, all copies of `extra` that follow it are left out. */
  function Absorbed(t: string, to: string, extra: string): string
    requires |to| > 0 && |extra| > 0
    decreases |t|
  {
    if t == "" then ""
    else if At(t, to, 0) then
      DropAllShrinks(t[|to|..], extra);
      to + Absorbed(DropAll(t[|to|..], extra), to, extra)
    else [t[0]] + Absorbed(t[1..], to, extra)
  }

  /** `to` cannot begin inside itself. */
  predicate BeginsOnce(to: string) {
    |to| > 0 && to[0] !in to[1..]
  }

  lemma AtParts(t: string, to: string, extra: string, i: nat)
    ensures At(t, to + extra, i) <==> At(t, to, i) && At(t, extra, i + |to|)
  {
    var n := |to + extra|;
    if i + n <= |t| {
      assert t[i..i + n] == t[i..i + |to|] + t[i + |to|..i + n];
      assert (to + extra)[..|to|] == to && (to + extra)[|to|..] == extra;
      if t[i..i + n] == to + extra {
        assert t[i..i + n][..|to|] == t[i..i + |to|] && t[i..i + n][|to|..] == t[i + |to|..i + n];
      }
    }
  }

  lemma NotInside(t: string, to: string, i: nat)
    requires BeginsOnce(to) && At(t, to, 0) && 0 < i < |to|
    ensures i < |t| && t[i] != to[0]
  {
    AtChar(t, to, 0, i);
    assert to[1..][i - 1] == to[i];
  }

  lemma AbsorbedAtTo(t: string, to: string, extra: string)
    requires |to| > 0 && |extra| > 0 && At(t, to, 0) && !At(t[|to|..], extra, 0)
    ensures Absorbed(t, to, extra) == to + Absorbed(t[|to|..], to, extra)
  {
  }

  lemma AbsorbedElsewhere(t: string, to: string, extra: string)
    requires |to| > 0 && |extra| > 0 && t != "" && !At(t, to, 0)
    ensures Absorbed(t, to, extra) == [t[0]] + Absorbed(t[1..], to, extra)
  {
  }

  lemma NoneAfterDrop(t: string, pattern: string, n: nat, i: nat)
    requires n <= i <= |t| && forall j :: 0 <= j < i ==> !At(t, pattern, j)
    ensures forall j :: 0 <= j < i - n ==> !At(t[n..], pattern, j)
  {
    forall j | 0 <= j < i - n ensures !At(t[n..], pattern, j) {
      AtDrop(t, pattern, n, j);
    }
  }

  /** Up to an occurrence, or to the end, nothing is left out. */
  lemma {:induction false} AbsorbedSkips(t: string, to: string, extra: string, i: nat)
    requires BeginsOnce(to) && |extra| > 0 && i <= |t| && forall j :: 0 <= j < i ==> !At(t, to + extra, j)
    requires i == |t| || t[i] == to[0]
    ensures Absorbed(t, to, extra) == t[..i] + Absorbed(t[i..], to, extra)
    decreases i
  {
    if i == 0 {
      assert t[0..] == t;
    } else if At(t, to, 0) {
      var n := |to|;
      AtParts(t, to, extra, 0);
      AtDrop(t, extra, n, 0);
      AbsorbedAtTo(t, to, extra);
      if i < n { NotInside(t, to, i); }
      assert n <= |t| && t[..n] == to;
      hide At, Absorbed, BeginsOnce;
      NoneAfterDrop(t, to + extra, n, i);
      AbsorbedSkips(t[n..], to, extra, i - n);
      Split(t, n, i);
      Regroup(to, t[n..][..i - n], Absorbed(t[i..], to, extra));
    } else {
      AbsorbedElsewhere(t, to, extra);
      hide At, Absorbed, BeginsOnce;
      NoneAfterDrop(t, to + extra, 1, i);
      AbsorbedSkips(t[1..], to, extra, i - 1);
      Split(t, 1, i);
      Regroup([t[0]], t[1..][..i - 1], Absorbed(t[i..], to, extra));
    }
  }

  lemma Split(t: string, n: nat, i: nat)
    requires n <= i <= |t|
    ensures t[..i] == t[..n] + t[n..][..i - n] && t[n..][i - n..] == t[i..] && (n == 1 ==> t[..n] == [t[0]])
  {
  }

  /** Dropping one copy first makes no difference. */
  lemma AbsorbedOneLess(rest: string, to: string, extra: string)
    requires |to| > 0 && |extra| > 0
    ensures Absorbed((to + extra) + rest, to, extra) == Absorbed(to + rest, to, extra)
  {
    var t, w := (to + extra) + rest, to + rest;
    assert t[0..|to|] == to && w[0..|to|] == to && w[|to|..] == rest;
    var u := t[|to|..];
    assert u == extra + rest && u[0..|extra|] == extra && u[|extra|..] == rest;
    assert DropAll(u, extra) == DropAll(rest, extra);
  }

  lemma AbsorbedStep(s: string, to: string, extra: string, pos: nat, i: nat)
    requires BeginsOnce(to) && |extra| > 0 && pos <= i && At(s, to + extra, i)
    requires forall j :: pos <= j < i ==> !At(s, to + extra, j)
    ensures var s1 := Replace(s, i, |to + extra|, to);
            s1[..i] + Absorbed(s1[i..], to, extra) == s[..pos] + Absorbed(s[pos..], to, extra)
  {
    hide *;
    var from := to + extra;
    SplitAt(s, from, pos, i);
    Pieces(s, pos, i, |from|, to);
    var s1, b, rest := Replace(s, i, |from|, to), s[pos..][..i - pos], s[i + |from|..];
    assert Absorbed(s1[i..], to, extra) == Absorbed(s[i..], to, extra) by {
      ToIsNotEmpty(to);
      AbsorbedOneLess(rest, to, extra);
    }
    assert Absorbed(s[pos..], to, extra) == b + Absorbed(s[i..], to, extra) by {
      NoneBefore(s, from, pos, i);
      ToIsNotEmpty(to);
      FirstCharacter(s, from, i);
      AbsorbedSkips(s[pos..], to, extra, i - pos);
    }
    Regroup(s[..pos], b, Absorbed(s[i..], to, extra));
  }

  lemma ToIsNotEmpty(to: string)
    requires BeginsOnce(to)
    ensures |to| > 0
  {
  }

  lemma AbsorbedRest(s: string, to: string, extra: string, pos: nat)
    requires BeginsOnce(to) && |extra| > 0 && pos <= |s| && forall i :: pos <= i ==> !At(s, to + extra, i)
    ensures s == s[..pos] + Absorbed(s[pos..], to, extra)
  {
    var t := s[pos..];
    forall j: nat ensures !At(t, to + extra, j) {
      AtDrop(s, to + extra, pos, j);
    }
    AbsorbedSkips(t, to, extra, |t|);
  }

  lemma {:induction false} RewriteIsAbsorbed(s: string, to: string, extra: string, pos: nat, kept: nat)
    requires !Contains(to, to + extra) && ReachesKept(s, to + extra, pos, kept) && pos <= |s|
    requires BeginsOnce(to) && |extra| > 0
    ensures Rewrite(s, to + extra, to, pos, kept) == s[..pos] + Absorbed(s[pos..], to, extra)
    decreases kept
  {
    var from := to + extra;
    match Find(s, from, pos)
    case None => AbsorbedRest(s, to, extra, pos);
    case Some(i) =>
      KeptShrinks(s, from, to, pos, kept, i);
      RewriteIsAbsorbed(Replace(s, i, |from|, to), to, extra, i, |s| - (i + |from|));
      AbsorbedStep(s, to, extra, pos, i);
  }

  /** When `to` is the beginning of `from`, replaceString leaves out the rest of `from` after every `to`, as often as it is
      repeated there. */
  lemma PrefixPairIsAbsorbed(s: string, to: string, extra: string)
    requires !Contains(to, to + extra) && BeginsOnce(to) && |extra| > 0
    ensures Replaced(s, to + extra, to) == Absorbed(s, to, extra)
  {
    ReachesAll(s, to + extra, to);
    RewriteIsAbsorbed(s, to, extra, 0, |s|);
    assert s[0..] == s && s[..0] + Absorbed(s, to, extra) == Absorbed(s, to, extra);
  }

  /** What each call makes of a name. */
  lemma CallsInOnePass(s: string, c: (string, string))
    requires c in CALLS
    ensures !Contains(c.1, c.0)
    ensures c.0 == SPACE_BRACKET || c.0 == UNSIGNED_LONG_LONG || c.0 == LONG_LONG ==>
              Replaced(s, c.0, c.1) == OnePass(s, c.0, c.1)
    ensures c.0 == CLOSE_CLOSE ==> Replaced(s, c.0, c.1) == Spaced(s)
    ensures c.0 == COMMA_SPACE ==> Replaced(s, c.0, c.1) == Absorbed(s, COMMA, " ")
    ensures c.0 == INLINE_1 ==> Replaced(s, c.0, c.1) == Absorbed(s, STD, "__1::")
    ensures c.0 == INLINE_CXX11 ==> Replaced(s, c.0, c.1) == Absorbed(s, STD, "__cxx11::")
  {
    CallsMayBeMade(c);
    if c.0 == SPACE_BRACKET || c.0 == UNSIGNED_LONG_LONG || c.0 == LONG_LONG {
      FreshPairIsOnePass(s, c.0, c.1);
    } else if c.0 == CLOSE_CLOSE {
      CloseCallSeparates(s);
    } else if c.0 == COMMA_SPACE {
      assert COMMA + " " == COMMA_SPACE;
      PrefixPairIsAbsorbed(s, COMMA, " ");
    } else if c.0 == INLINE_1 {
      assert STD + "__1::" == INLINE_1;
      PrefixPairIsAbsorbed(s, STD, "__1::");
    } else {
      assert STD + "__cxx11::" == INLINE_CXX11;
      PrefixPairIsAbsorbed(s, STD, "__cxx11::");
    }
  }

  // The pair whose replacement ends with the beginning of another occurrence.

  lemma {:induction false} CloseCallIsOnePass(s: string, pos: nat, kept: nat)
    requires !Contains(CLOSE_SPACE_CLOSE, CLOSE_CLOSE) && ReachesKept(s, CLOSE_CLOSE, pos, kept) && pos <= |s|
    ensures Rewrite(s, CLOSE_CLOSE, CLOSE_SPACE_CLOSE, pos, kept) == s[..pos] + Spaced(s[pos..])
    decreases kept
  {
    match Find(s, CLOSE_CLOSE, pos)
    case None => NothingSpaced(s, pos);
    case Some(i) =>
      KeptShrinks(s, CLOSE_CLOSE, CLOSE_SPACE_CLOSE, pos, kept, i);
      CloseCallIsOnePass(Replace(s, i, 2, CLOSE_SPACE_CLOSE), i, |s| - (i + 2));
      CloseStep(s, pos, i);
  }

  lemma NothingSpaced(s: string, pos: nat)
    requires pos <= |s| && forall i :: pos <= i ==> !At(s, CLOSE_CLOSE, i)
    ensures s == s[..pos] + Spaced(s[pos..])
  {
    var t := s[pos..];
    forall j: nat ensures !At(t, CLOSE_CLOSE, j) {
      AtDrop(s, CLOSE_CLOSE, pos, j);
    }
    SpacedSkips(t, |t|);
  }

  lemma SpacedCons(c: char, v: string)
    requires c != '>' || v == "" || v[0] != '>'
    ensures Spaced([c] + v) == [c] + Spaced(v)
  {
    var t := [c] + v;
    assert t[1..] == v;
    if At(t, CLOSE_CLOSE, 0) {
      AtChar(t, CLOSE_CLOSE, 0, 0);
      AtChar(t, CLOSE_CLOSE, 0, 1);
    }
  }

  lemma SpacedStep(u: string)
    ensures Spaced("> >" + u) == "> " + Spaced(">" + u)
  {
    SpacedCons(' ', ">" + u);
    SpacedCons('>', " " + (">" + u));
    assert "> >" + u == ['>'] + (" " + (">" + u));
  }

  lemma ContainsCons(c: char, v: string, pattern: string)
    ensures Contains([c] + v, pattern) <==> At([c] + v, pattern, 0) || Contains(v, pattern)
  {
    var t := [c] + v;
    assert t[1..] == v;
    if Contains(t, pattern) {
      var i: nat :| At(t, pattern, i);
      if i > 0 { AtDrop(t, pattern, 1, i - 1); }
    }
    if Contains(v, pattern) {
      var i: nat :| At(v, pattern, i);
      AtDrop(t, pattern, 1, i);
    }
  }

  const TWO_SPACES_BRACKET := "  ["

  predicate StartsSpaceBracket(t: string) { |t| >= 2 && t[0] == ' ' && t[1] == '[' }

  predicate StartsTwoSpacesBracket(t: string) { |t| >= 3 && t[0] == ' ' && t[1] == ' ' && t[2] == '[' }

  lemma StartsAt(t: string)
    ensures At(t, SPACE_BRACKET, 0) <==> StartsSpaceBracket(t)
    ensures At(t, TWO_SPACES_BRACKET, 0) <==> StartsTwoSpacesBracket(t)
  {
    if |t| >= 2 { assert t[0..2] == [t[0], t[1]]; }
    if |t| >= 3 { assert t[0..3] == [t[0], t[1], t[2]]; }
  }

  lemma {:induction false} BracketPassContains(t: string)
    ensures Contains(OnePass(t, SPACE_BRACKET, BRACKET), SPACE_BRACKET) <==> Contains(t, TWO_SPACES_BRACKET)
    decreases |t|
  {
    StartsAt(t);
    if t == "" {
      assert forall i: nat :: !At("", SPACE_BRACKET, i) && !At("", TWO_SPACES_BRACKET, i);
    } else if StartsSpaceBracket(t) {
      var u := t[2..];
      BracketPassContains(u);
      ContainsCons('[', OnePass(u, SPACE_BRACKET, BRACKET), SPACE_BRACKET);
      StartsAt("[" + OnePass(u, SPACE_BRACKET, BRACKET));
      ContainsCons(' ', t[1..], TWO_SPACES_BRACKET);
      ContainsCons('[', u, TWO_SPACES_BRACKET);
      StartsAt("[" + u);
      assert t == [' '] + t[1..] && t[1..] == ['['] + u;
    } else {
      var v := t[1..];
      BracketPassContains(v);
      ContainsCons(t[0], OnePass(v, SPACE_BRACKET, BRACKET), SPACE_BRACKET);
      StartsAt([t[0]] + OnePass(v, SPACE_BRACKET, BRACKET));
      ContainsCons(t[0], v, TWO_SPACES_BRACKET);
      StartsAt(v);
      assert t == [t[0]] + v;
    }
  }

  /** The call for " [" leaves one exactly if the string had two spaces before an opening square bracket. */
  lemma BracketCallNormalisesIff(s: string)
    ensures !Contains(BRACKET, SPACE_BRACKET)
    ensures Contains(Replaced(s, SPACE_BRACKET, BRACKET), SPACE_BRACKET) <==> Contains(s, TWO_SPACES_BRACKET)
  {
    CallsMayBeMade((SPACE_BRACKET, BRACKET));
    FreshPairIsOnePass(s, SPACE_BRACKET, BRACKET);
    BracketPassContains(s);
  }

  /** The characters other than spaces. */
  function Ink(t: string): string {
    if t == "" then "" else (if t[0] == ' ' then "" else [t[0]]) + Ink(t[1..])
  }

  lemma InkCons(c: char, u: string)
    ensures Ink([c] + u) == (if c == ' ' then "" else [c]) + Ink(u)
  {
    assert ([c] + u)[1..] == u;
  }

  lemma {:induction false} SpacedKeepsInk(t: string)
    ensures Ink(Spaced(t)) == Ink(t)
    decreases |t|
  {
    if t != "" {
      var u := Spaced(t[1..]);
      SpacedKeepsInk(t[1..]);
      InkCons(t[0], u);
      if At(t, CLOSE_CLOSE, 0) {
        AtChar(t, CLOSE_CLOSE, 0, 0);
        InkCons(' ', u);
        InkCons('>', " " + u);
        assert "> " + u == ['>'] + (" " + u);
      }
    }
  }

  /** The call for ">>" separates all closing brackets, and adds nothing but the spaces between them. */
  lemma CloseCallSeparates(s: string)
    ensures !Contains(CLOSE_SPACE_CLOSE, CLOSE_CLOSE)
    ensures var r := Replaced(s, CLOSE_CLOSE, CLOSE_SPACE_CLOSE);
            r == Spaced(s) && !Contains(r, CLOSE_CLOSE) && Ink(r) == Ink(s)
  {
    CallsMayBeMade((CLOSE_CLOSE, CLOSE_SPACE_CLOSE));
    CallsNormalise((CLOSE_CLOSE, CLOSE_SPACE_CLOSE));
    ReachesAll(s, CLOSE_CLOSE, CLOSE_SPACE_CLOSE);
    CloseCallIsOnePass(s, 0, |s|);
    assert s[0..] == s && s[..0] + Spaced(s) == Spaced(s);
    ReplacedHasNone(s, CLOSE_CLOSE, CLOSE_SPACE_CLOSE);
    SpacedKeepsInk(s);
  }
}
