/**
  removeParameter: every template argument that starts with a given prefix, such as ",std::allocator<", is cut out of a
  type name together with the bracket that closes it.
 */
module RemoveParameter {
  import opened Options
  import opened TypeDemangler

  /** How many angle brackets are open after the first i characters. */
  function Depth(s: string, i: nat): int
    requires i <= |s|
  {
    if i == 0 then 0
    else Depth(s, i - 1) + if s[i - 1] == '<' then 1 else if s[i - 1] == '>' then -1 else 0
  }

  ghost predicate Balanced(s: string) {
    (forall i :: 0 <= i <= |s| ==> Depth(s, i) >= 0) && Depth(s, |s|) == 0
  }

  predicate IsBracket(c: char) { c == '<' || c == '>' }

  /** The only bracket of the prefix is the opening one at its end. */
  predicate OpensAtEnd(prefix: string) {
    && |prefix| > 0 && prefix[|prefix| - 1] == '<'
    && forall k :: 0 <= k < |prefix| - 1 ==> !IsBracket(prefix[k])
  }

  /** std::string::find_first_of("<>"). */
  function FindBracket(s: string, pos: nat): (r: Option<nat>)
    ensures r.Some? ==> pos <= r.value < |s| && IsBracket(s[r.value])
    ensures r.Some? ==> forall k :: pos <= k < r.value ==> !IsBracket(s[k])
    ensures r.None? ==> forall k :: pos <= k < |s| ==> !IsBracket(s[k])
    decreases |s| - pos
  {
    if pos >= |s| then None
    else if IsBracket(s[pos]) then Some(pos)
    else FindBracket(s, pos + 1)
  }

  /** The first position at or after pos whose bracket closes the last of the open ones. */
  function Close(s: string, pos: nat, open: nat): (r: Option<nat>)
    requires open > 0
    ensures r.Some? ==> pos <= r.value < |s| && s[r.value] == '>'
    decreases |s| - pos
  {
    if pos >= |s| then None
    else if s[pos] == '<' then Close(s, pos + 1, open + 1)
    else if s[pos] == '>' then if open == 1 then Some(pos) else Close(s, pos + 1, open - 1)
    else Close(s, pos + 1, open)
  }

  /** The two calls of erase: the argument, and a space that would be left before a closing bracket. */
  function Erase(s: string, index: nat, close: nat): string
    requires index <= close < |s|
  {
    var t := s[..index] + s[close + 1..];
    if index < |t| && t[index] == ' ' && (index == 0 || t[index - 1] != '>') then t[..index] + t[index + 1..] else t
  }

  // ----- Matching brackets -----

  lemma {:induction false} DepthOfCut(s: string, a: nat, b: nat, i: nat)
    requires a <= b <= |s| && Depth(s, a) == Depth(s, b) && i <= |s| - (b - a)
    ensures var t := s[..a] + s[b..]; |t| == |s| - (b - a) && Depth(t, i) == Depth(s, if i <= a then i else i + (b - a))
    decreases i
  {
    if i > 0 {
      DepthOfCut(s, a, b, i - 1);
      var t := s[..a] + s[b..];
      assert t[i - 1] == if i - 1 < a then s[i - 1] else s[i - 1 + (b - a)];
    }
  }

  /** Cutting out a piece between two places of equal depth leaves the string balanced. */
  lemma CutKeepsBalance(s: string, a: nat, b: nat)
    requires Balanced(s) && a <= b <= |s| && Depth(s, a) == Depth(s, b)
    ensures Balanced(s[..a] + s[b..])
  {
    var t := s[..a] + s[b..];
    forall i | 0 <= i <= |t| ensures Depth(t, i) >= 0 {
      DepthOfCut(s, a, b, i);
    }
    DepthOfCut(s, a, b, |t|);
  }

  /** Scanning finds the closing bracket, at the same depth, and stays above that depth on the way. */
  lemma {:induction false} CloseMatches(s: string, pos: nat, open: nat, base: int)
    requires open > 0 && pos <= |s| && Depth(s, pos) == base + open && Depth(s, |s|) <= base
    ensures Close(s, pos, open).Some?
    ensures var c := Close(s, pos, open).value;
            Depth(s, c + 1) == base && forall k :: pos <= k <= c ==> Depth(s, k) > base
    decreases |s| - pos
  {
    if pos < |s| {
      if s[pos] == '<' {
        CloseMatches(s, pos + 1, open + 1, base);
      } else if s[pos] != '>' {
        CloseMatches(s, pos + 1, open, base);
      } else if open > 1 {
        CloseMatches(s, pos + 1, open - 1, base);
      }
    }
  }

  lemma {:induction false} DepthOverPlain(s: string, a: nat, b: nat)
    requires a <= b <= |s| && forall k :: a <= k < b ==> !IsBracket(s[k])
    ensures Depth(s, b) == Depth(s, a)
    decreases b
  {
    if a < b {
      DepthOverPlain(s, a, b - 1);
    }
  }

  /** In a balanced string the argument found is closed, and the piece to erase ends at the depth where it begins. */
  lemma ArgumentIsClosed(s: string, prefix: string, index: nat)
    requires Balanced(s) && OpensAtEnd(prefix) && At(s, prefix, index)
    ensures var c := Close(s, index + |prefix|, 1);
            c.Some? && Depth(s, c.value + 1) == Depth(s, index)
            && forall k :: index + |prefix| <= k <= c.value ==> Depth(s, k) > Depth(s, index)
  {
    var n := |prefix|;
    forall k | 0 <= k < n ensures s[index + k] == prefix[k] {
      AtChar(s, prefix, index, k);
    }
    DepthOverPlain(s, index, index + n - 1);
    assert s[index + n - 1] == '<';
    CloseMatches(s, index + n, 1, Depth(s, index));
  }

  lemma EraseKeepsBalance(s: string, index: nat, close: nat)
    requires Balanced(s) && index <= close < |s| && Depth(s, close + 1) == Depth(s, index)
    ensures Balanced(Erase(s, index, close))
  {
    CutKeepsBalance(s, index, close + 1);
    var t := s[..index] + s[close + 1..];
    if index < |t| && t[index] == ' ' {
      assert Depth(t, index + 1) == Depth(t, index);
      CutKeepsBalance(t, index, index + 1);
    }
  }

  // ----- removeParameter -----

  /** One turn of the outer loop: the first argument found is erased if it is closed. */
  function Turn(s: string, prefix: string): string {
    match Find(s, prefix, 0)
    case None => s
    case Some(index) =>
      match Close(s, index + |prefix|, 1)
      case None => s
      case Some(close) => Erase(s, index, close)
  }

  function Turns(s: string, prefix: string, k: nat): string
    decreases k
  {
    if k == 0 then s else Turns(Turn(s, prefix), prefix, k - 1)
  }

  /** The first argument found is not closed: the inner loop then finds nothing to erase. */
  predicate Unclosed(s: string, prefix: string) {
    match Find(s, prefix, 0)
    case None => false
    case Some(index) => Close(s, index + |prefix|, 1).None?
  }

  /** What removeParameter makes of s, or turns on for ever. */
  function Removed(s: string, prefix: string): string
    decreases |s|
  {
    match Find(s, prefix, 0)
    case None => s
    case Some(index) =>
      match Close(s, index + |prefix|, 1)
      case None => s
      case Some(close) => Removed(Erase(s, index, close), prefix)
  }

  /** No string on the way has a first argument that is not closed. */
  ghost predicate AlwaysClosed(s: string, prefix: string) {
    forall k: nat :: !Unclosed(Turns(s, prefix, k), prefix)
  }

  lemma {:induction false} TurnsKeepRemoved(s: string, prefix: string, k: nat)
    ensures Removed(Turns(s, prefix, k), prefix) == Removed(s, prefix)
    decreases k
  {
    if k > 0 {
      TurnsKeepRemoved(Turn(s, prefix), prefix, k - 1);
    }
  }

  lemma {:induction false} TurnsReachRemoved(s: string, prefix: string) returns (k: nat)
    ensures Turns(s, prefix, k) == Removed(s, prefix)
    ensures Find(Removed(s, prefix), prefix, 0).None? || Unclosed(Removed(s, prefix), prefix)
    decreases |s|
  {
    k := 0;
    if Find(s, prefix, 0).Some? && !Unclosed(s, prefix) {
      k := TurnsReachRemoved(Turn(s, prefix), prefix);
      k := k + 1;
    }
  }

  /** The outer loop ends if and only if no string on the way has a first argument that is not closed. */
  lemma EndsIffAlwaysClosed(s: string, prefix: string)
    ensures (exists k: nat :: Find(Turns(s, prefix, k), prefix, 0).None?) <==> AlwaysClosed(s, prefix)
  {
    if k: nat :| Find(Turns(s, prefix, k), prefix, 0).None? {
      TurnsKeepRemoved(s, prefix, k);
      forall j: nat ensures !Unclosed(Turns(s, prefix, j), prefix) {
        TurnsKeepRemoved(s, prefix, j);
      }
    } else {
      var k := TurnsReachRemoved(s, prefix);
      assert Unclosed(Turns(s, prefix, k), prefix);
    }
  }

  lemma {:induction false} PlainIsUnclosed(s: string, pos: nat)
    requires forall k :: pos <= k < |s| ==> s[k] != '>'
    ensures forall open: nat :: open > 0 ==> Close(s, pos, open).None?
    decreases if pos < |s| then |s| - pos else 0
  {
    if pos < |s| {
      PlainIsUnclosed(s, pos + 1);
    }
  }

  lemma {:induction false} UnclosedStays(s: string, prefix: string, k: nat)
    requires Unclosed(s, prefix)
    ensures Turns(s, prefix, k) == s
    decreases k
  {
    if k > 0 {
      UnclosedStays(s, prefix, k - 1);
    }
  }

  /** Inputs on which the loop never ends: the prefix with no closing bracket after it. */
  lemma UnclosedNeverEnds(prefix: string, rest: string, k: nat)
    requires forall i :: 0 <= i < |rest| ==> rest[i] != '>'
    ensures Turns(prefix + rest, prefix, k) == prefix + rest && Find(prefix + rest, prefix, 0) == Some(0)
  {
    var s := prefix + rest;
    assert s[0..|prefix|] == prefix && At(s, prefix, 0);
    assert forall i :: |prefix| <= i < |s| ==> s[i] == rest[i - |prefix|];
    PlainIsUnclosed(s, |prefix|);
    UnclosedStays(s, prefix, k);
  }

  // ----- removeParameter on balanced names -----

  /** Where the argument that begins at index ends. */
  function EndOf(s: string, prefix: string, index: nat): (close: nat)
    requires Balanced(s) && OpensAtEnd(prefix) && At(s, prefix, index)
    ensures index + |prefix| <= close < |s| && Close(s, index + |prefix|, 1) == Some(close)
  {
    ArgumentIsClosed(s, prefix, index);
    Close(s, index + |prefix|, 1).value
  }

  lemma ErasedIsBalanced(s: string, prefix: string, index: nat)
    requires Balanced(s) && OpensAtEnd(prefix) && At(s, prefix, index)
    ensures Balanced(Erase(s, index, EndOf(s, prefix, index)))
  {
    ArgumentIsClosed(s, prefix, index);
    EraseKeepsBalance(s, index, EndOf(s, prefix, index));
  }

  lemma EraseShrinks(s: string, index: nat, close: nat)
    requires index <= close < |s|
    ensures |Erase(s, index, close)| < |s|
  {
  }

  lemma TurnErases(s: string, prefix: string, index: nat, close: nat)
    requires Find(s, prefix, 0) == Some(index) && Close(s, index + |prefix|, 1) == Some(close)
    ensures index <= close < |s| && Turn(s, prefix) == Erase(s, index, close) && |Turn(s, prefix)| < |s|
    ensures !Unclosed(s, prefix) && Removed(Turn(s, prefix), prefix) == Removed(s, prefix)
  {
    hide Find, Close, Erase, At;
    EraseShrinks(s, index, close);
  }

  lemma RemovedAfter(s: string, prefix: string, index: nat)
    requires Balanced(s) && OpensAtEnd(prefix) && Find(s, prefix, 0) == Some(index)
    ensures !Unclosed(s, prefix) && Turn(s, prefix) == Erase(s, index, EndOf(s, prefix, index))
    ensures Balanced(Turn(s, prefix)) && |Turn(s, prefix)| < |s|
    ensures Removed(Turn(s, prefix), prefix) == Removed(s, prefix)
  {
    ErasedIsBalanced(s, prefix, index);
    TurnErases(s, prefix, index, EndOf(s, prefix, index));
    hide *;
  }

  lemma RemovedAtEnd(s: string, prefix: string)
    requires Find(s, prefix, 0).None?
    ensures !Unclosed(s, prefix) && Turn(s, prefix) == s && Removed(s, prefix) == s && !Contains(s, prefix)
  {
  }

  /** On a balanced name every argument met is closed, so the loop ends. */
  lemma {:induction false} BalancedIsAlwaysClosed(s: string, prefix: string, k: nat)
    requires Balanced(s) && OpensAtEnd(prefix)
    ensures Balanced(Turns(s, prefix, k)) && !Unclosed(Turns(s, prefix, k), prefix)
    decreases k
  {
    hide *;
    if i :| Find(s, prefix, 0) == Some(i) {
      RemovedAfter(s, prefix, i);
    } else {
      RemovedAtEnd(s, prefix);
    }
    OneTurnMore(s, prefix, k);
    if k > 0 {
      BalancedIsAlwaysClosed(Turn(s, prefix), prefix, k - 1);
    }
  }

  lemma OneTurnMore(s: string, prefix: string, k: nat)
    ensures Turns(s, prefix, k) == if k == 0 then s else Turns(Turn(s, prefix), prefix, k - 1)
  {
  }

  lemma CloseSkipsPlain(s: string, pos: nat, open: nat)
    requires open > 0
    ensures var b := FindBracket(s, pos);
            Close(s, pos, open) == if b.None? then None else Close(s, b.value, open)
    decreases |s| - pos
  {
    if pos < |s| && !IsBracket(s[pos]) {
      CloseSkipsPlain(s, pos + 1, open);
    }
  }

  /** The inner loop, up to the bracket that closes the argument. */
  method FindClose(s: string, pos: nat) returns (inx: nat)
    requires Close(s, pos, 1).Some?
    ensures Close(s, pos, 1) == Some(inx)
  {
    var depth: nat := 1;
    CloseSkipsPlain(s, pos, 1);
    var next := FindBracket(s, pos);
    inx := next.value;
    while true
      invariant depth > 0 && inx < |s| && IsBracket(s[inx]) && Close(s, inx, depth) == Close(s, pos, 1)
      decreases |s| - inx
    {
      if s[inx] == '<' {
        depth := depth + 1;
      } else {
        depth := depth - 1;
        if depth == 0 {
          break;
        }
      }
      CloseSkipsPlain(s, inx + 1, depth);
      next := FindBracket(s, inx + 1);
      inx := next.value;
    }
  }

  lemma AlwaysClosedGoesOn(s: string, prefix: string)
    requires AlwaysClosed(s, prefix)
    ensures !Unclosed(s, prefix) && AlwaysClosed(Turn(s, prefix), prefix)
  {
    assert !Unclosed(Turns(s, prefix, 0), prefix);
    forall k: nat ensures !Unclosed(Turns(Turn(s, prefix), prefix, k), prefix) {
      assert !Unclosed(Turns(s, prefix, k + 1), prefix);
    }
  }

  lemma FirstIsClosed(s: string, prefix: string, index: nat)
    requires !Unclosed(s, prefix) && Find(s, prefix, 0) == Some(index)
    ensures Close(s, index + |prefix|, 1).Some?
  {
  }

  /** removeParameter, on every input on which it ends. */
  method Remove(s: string, toRemove: string) returns (demangledName: string)
    requires AlwaysClosed(s, toRemove)
    ensures demangledName == Removed(s, toRemove) && Find(demangledName, toRemove, 0).None?
  {
    hide Find, Close, Erase, At, AlwaysClosed, Turn, Removed, Unclosed;
    demangledName := s;
    var index: Option<nat> := Find(demangledName, toRemove, 0);
    while index.Some?
      invariant AlwaysClosed(demangledName, toRemove) && index == Find(demangledName, toRemove, 0)
      invariant Removed(demangledName, toRemove) == Removed(s, toRemove)
      decreases |demangledName|
    {
      AlwaysClosedGoesOn(demangledName, toRemove);
      FirstIsClosed(demangledName, toRemove, index.value);
      var inx := FindClose(demangledName, index.value + |toRemove|);
      TurnErases(demangledName, toRemove, index.value, inx);
      demangledName := Erase(demangledName, index.value, inx);
      index := Find(demangledName, toRemove, 0);
    }
    RemovedAtEnd(demangledName, toRemove);
  }

  // ----- What is promised -----

  /** r is s with some characters left out. */
  ghost predicate Subsequence(r: string, s: string)
    decreases |s|
  {
    if r == "" then true
    else if s == "" then false
    else if r[0] == s[0] then Subsequence(r[1..], s[1..]) || Subsequence(r, s[1..])
    else Subsequence(r, s[1..])
  }

  lemma {:induction false} SubsequenceSelf(s: string)
    ensures Subsequence(s, s)
    decreases |s|
  {
    if s != "" {
      SubsequenceSelf(s[1..]);
    }
  }

  lemma {:induction false} SubsequenceTransitive(r: string, s: string, t: string)
    requires Subsequence(r, s) && Subsequence(s, t)
    ensures Subsequence(r, t)
    decreases |t|
  {
    if r != "" && t != "" {
      if s[0] == t[0] && Subsequence(s[1..], t[1..]) {
        if r[0] == s[0] && Subsequence(r[1..], s[1..]) {
          SubsequenceTransitive(r[1..], s[1..], t[1..]);
        } else {
          SubsequenceTransitive(r, s[1..], t[1..]);
        }
      } else {
        SubsequenceTransitive(r, s, t[1..]);
      }
    }
  }

  lemma {:induction false} CutIsSubsequence(s: string, a: nat, b: nat)
    requires a <= b <= |s|
    ensures Subsequence(s[..a] + s[b..], s)
    decreases |s|
  {
    var t := s[..a] + s[b..];
    if a > 0 {
      CutIsSubsequence(s[1..], a - 1, b - 1);
      assert t[1..] == s[1..][..a - 1] + s[1..][b - 1..];
    } else if b > 0 {
      CutIsSubsequence(s[1..], 0, b - 1);
      assert t == s[1..][..0] + s[1..][b - 1..];
    } else {
      assert t == s;
      SubsequenceSelf(s);
    }
  }

  lemma EraseIsSubsequence(s: string, index: nat, close: nat)
    requires index <= close < |s|
    ensures Subsequence(Erase(s, index, close), s)
  {
    var t := s[..index] + s[close + 1..];
    CutIsSubsequence(s, index, close + 1);
    if index < |t| {
      CutIsSubsequence(t, index, index + 1);
      SubsequenceTransitive(t[..index] + t[index + 1..], t, s);
    }
  }

  /** From a balanced string removeParameter makes a balanced one that has no such argument and nothing new. */
  lemma {:induction false} RemovedIsClean(s: string, prefix: string)
    requires Balanced(s) && OpensAtEnd(prefix)
    ensures var r := Removed(s, prefix); Balanced(r) && Subsequence(r, s) && !Contains(r, prefix)
    decreases |s|
  {
    hide *;
    if i :| Find(s, prefix, 0) == Some(i) {
      RemovedAfter(s, prefix, i);
      EraseIsSubsequence(s, i, EndOf(s, prefix, i));
      RemovedIsClean(Turn(s, prefix), prefix);
      SubsequenceTransitive(Removed(s, prefix), Turn(s, prefix), s);
    } else {
      SubsequenceSelf(s);
      RemovedAtEnd(s, prefix);
    }
  }
}
