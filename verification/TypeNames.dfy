/**
  What removeParameter means: on the name of a type, printed with its template arguments in the way of gcc, it leaves the
  name of the type without the arguments it is to strip.
 */
module TypeNames {
  import opened Options
  import opened TypeDemangler
  import opened RemoveParameter

  datatype Type = Type(name: string, args: seq<Type>)

  predicate PlainName(name: string) {
    |name| > 0 && forall k :: 0 <= k < |name| ==> !IsBracket(name[k]) && name[k] != ','
  }

  predicate Valid(t: Type) {
    PlainName(t.name) && forall k :: 0 <= k < |t.args| ==> Valid(t.args[k])
  }

  /** A space keeps two closing brackets apart. */
  function Closing(body: string): string {
    if body != "" && body[|body| - 1] == '>' then " >" else ">"
  }

  function Print(t: Type): string
    decreases t, 0
  {
    if t.args == [] then t.name
    else t.name + "<" + Joined(t.args) + Closing(Joined(t.args))
  }

  function Joined(args: seq<Type>): string
    decreases args, 0
  {
    if args == [] then "" else Print(args[0]) + Rest(args[1..])
  }

  function Rest(args: seq<Type>): string
    decreases args, 1
  {
    if args == [] then "" else "," + Print(args[0]) + Rest(args[1..])
  }

  /** An argument to strip: not the first, and an instance of the template of that name. */
  predicate Removable(target: string, x: Type) {
    x.name == target && x.args != []
  }

  function Strip(target: string, t: Type): Type
    decreases t, 0
  {
    if t.args == [] then t
    else Type(t.name, [Strip(target, t.args[0])] + StripRest(target, t.args[1..]))
  }

  function StripRest(target: string, args: seq<Type>): seq<Type>
    decreases args
  {
    if args == [] then []
    else (if Removable(target, args[0]) then [] else [Strip(target, args[0])]) + StripRest(target, args[1..])
  }

  function Prefix(target: string): string {
    "," + target + "<"
  }

  // ----- The arguments one by one -----

  /** What comes before argument k. */
  function Before(args: seq<Type>, k: nat): string
    requires k <= |args|
  {
    if k == 0 then "" else Joined(args[..k]) + ","
  }

  lemma {:induction false} RestSplits(a: seq<Type>, b: seq<Type>)
    ensures Rest(a + b) == Rest(a) + Rest(b)
    decreases |a|
  {
    if a == [] {
      assert a + b == b;
    } else {
      RestSplits(a[1..], b);
      assert (a + b)[1..] == a[1..] + b;
      assert (a + b)[0] == a[0];
    }
  }

  lemma JoinedCons(x: Type, xs: seq<Type>)
    ensures Joined([x] + xs) == Print(x) + Rest(xs)
    ensures Rest([x] + xs) == "," + (Print(x) + Rest(xs))
  {
    assert ([x] + xs)[1..] == xs;
    assert "," + Print(x) + Rest(xs) == "," + (Print(x) + Rest(xs));
  }

  lemma Regroup(p: string, a: string, q: string, b: string)
    ensures p + (a + ("," + (q + b))) == ((p + a) + ",") + q + b
  {
  }

  lemma JoinedAtInner(x: Type, a: seq<Type>, y: Type, b: seq<Type>)
    ensures Joined([x] + (a + ([y] + b))) == (Joined([x] + a) + ",") + Print(y) + Rest(b)
  {
    JoinedCons(y, b);
    JoinedCons(x, a);
    JoinedCons(x, a + ([y] + b));
    RestSplits(a, [y] + b);
    hide *;
    Regroup(Print(x), Rest(a), Print(y), Rest(b));
  }

  lemma JoinedAt(args: seq<Type>, k: nat)
    requires k < |args|
    ensures Joined(args) == Before(args, k) + Print(args[k]) + Rest(args[k + 1..])
  {
    hide *;
    if k == 0 {
      FirstArg(args);
    } else {
      var x, a, b := args[0], args[1..k], args[k + 1..];
      BeforeIs(args, k);
      JoinedAtInner(x, a, args[k], b);
      SeqAt(args, k);
    }
  }

  lemma SeqAt<T>(s: seq<T>, k: nat)
    requires 0 < k < |s|
    ensures s == [s[0]] + (s[1..k] + ([s[k]] + s[k + 1..])) && s[..k] == [s[0]] + s[1..k]
  {
  }

  lemma FirstArg(args: seq<Type>)
    requires args != []
    ensures Joined(args) == Before(args, 0) + Print(args[0]) + Rest(args[1..])
  {
  }

  lemma BeforeIs(args: seq<Type>, k: nat)
    requires 0 < k <= |args|
    ensures Before(args, k) == Joined(args[..k]) + ","
  {
  }

  lemma BeforeNext(args: seq<Type>, k: nat)
    requires k < |args|
    ensures Before(args, k + 1) == Before(args, k) + Print(args[k]) + ","
  {
    JoinedAt(args[..k + 1], k);
    assert args[..k + 1][..k] == args[..k] && args[..k + 1][k + 1..] == [];
  }

  lemma AtBounds(s: string, u: string, pos: nat)
    requires At(s, u, pos)
    ensures pos + |u| <= |s|
  {
  }

  lemma AtSplit(s: string, u: string, v: string, pos: nat)
    requires At(s, u + v, pos)
    ensures At(s, u, pos) && At(s, v, pos + |u|)
  {
    assert s[pos..pos + |u|] == (u + v)[..|u|];
    assert s[pos + |u|..pos + |u| + |v|] == (u + v)[|u|..];
  }

  // ----- The parts of a printed type inside a string -----

  lemma PrintIs(t: Type)
    requires t.args != []
    ensures Print(t) == t.name + ("<" + (Joined(t.args) + Closing(Joined(t.args))))
  {
  }

  lemma PrintParts(t: Type, s: string, pos: nat)
    requires t.args != [] && At(s, Print(t), pos)
    ensures var j, c := Joined(t.args), Closing(Joined(t.args)); var inner := pos + |t.name| + 1;
            && |Print(t)| == |t.name| + 1 + |j| + |c| && inner + |j| + |c| <= |s|
            && At(s, t.name, pos) && s[inner - 1] == '<' && At(s, j, inner)
            && s[inner + |j| + |c| - 1] == '>' && (|c| == 2 ==> s[inner + |j|] == ' ')
  {
    hide *;
    var j, c := Joined(t.args), Closing(Joined(t.args));
    var inner := pos + |t.name| + 1;
    PrintIs(t);
    ClosingIs(j);
    AtSplit(s, t.name, "<" + (j + c), pos);
    AtSplit(s, "<", j + c, pos + |t.name|);
    AtSplit(s, j, c, inner);
    AtBounds(s, c, inner + |j|);
    AtChar(s, "<", inner - 1, 0);
    AtChar(s, c, inner + |j|, 0);
    AtChar(s, c, inner + |j|, |c| - 1);
  }

  lemma ClosingIs(body: string)
    ensures var c := Closing(body); c[|c| - 1] == '>' && (|c| == 1 || (|c| == 2 && c[0] == ' '))
  {
  }

  lemma JoinedParts(args: seq<Type>, s: string, pos: nat)
    requires args != [] && At(s, Joined(args), pos)
    ensures var n := |Print(args[0])|;
            |Joined(args)| == n + |Rest(args[1..])| && At(s, Print(args[0]), pos) && At(s, Rest(args[1..]), pos + n)
  {
    assert Joined(args) == Print(args[0]) + Rest(args[1..]);
    hide *;
    AtSplit(s, Print(args[0]), Rest(args[1..]), pos);
  }

  lemma NoArgs()
    ensures Joined([]) == "" && Rest([]) == ""
  {
  }

  lemma NothingKept(s: string, pos: nat)
    requires pos <= |s|
    ensures DepthKept(s, pos, pos)
  {
  }

  lemma RestParts(args: seq<Type>, s: string, pos: nat)
    requires args != [] && At(s, Rest(args), pos)
    ensures var n := |Print(args[0])|;
            && |Rest(args)| == 1 + n + |Rest(args[1..])|
            && pos < |s| && s[pos] == ',' && At(s, Print(args[0]), pos + 1) && At(s, Rest(args[1..]), pos + 1 + n)
  {
    hide *;
    var p, r := Print(args[0]), Rest(args[1..]);
    assert args == [args[0]] + args[1..];
    JoinedCons(args[0], args[1..]);
    AtSplit(s, ",", p + r, pos);
    AtSplit(s, p, r, pos + 1);
    AtChar(s, ",", pos, 0);
  }

  // ----- Printed types are balanced -----

  lemma DepthOfPlain(s: string, u: string, pos: nat)
    requires At(s, u, pos) && forall k :: 0 <= k < |u| ==> !IsBracket(u[k])
    ensures DepthKept(s, pos, pos + |u|)
  {
    forall i | pos <= i <= pos + |u| ensures Depth(s, i) == Depth(s, pos) {
      forall k | pos <= k < i ensures !IsBracket(s[k]) {
        AtChar(s, u, pos, k - pos);
      }
      DepthOverPlain(s, pos, i);
    }
  }

  ghost predicate DepthKept(s: string, a: nat, b: nat) {
    a <= b <= |s| && Depth(s, b) == Depth(s, a) && forall i :: a <= i <= b ==> Depth(s, i) >= Depth(s, a)
  }

  lemma DepthKeptJoin(s: string, a: nat, b: nat, c: nat)
    requires DepthKept(s, a, b) && DepthKept(s, b, c)
    ensures DepthKept(s, a, c)
  {
  }

  lemma DepthKeptInBrackets(s: string, a: nat, b: nat)
    requires a < |s| && s[a] == '<' && DepthKept(s, a + 1, b) && b < |s|
    requires s[b] == '>' || (s[b] == ' ' && b + 1 < |s| && s[b + 1] == '>')
    ensures DepthKept(s, a, if s[b] == '>' then b + 1 else b + 2)
  {
    assert Depth(s, a + 1) == Depth(s, a) + 1;
    if s[b] == ' ' {
      assert Depth(s, b + 1) == Depth(s, b) && Depth(s, b + 2) == Depth(s, a);
    }
  }

  lemma ValidParts(t: Type)
    requires Valid(t)
    ensures t.args == [] ==> Print(t) == t.name
    ensures PlainName(t.name) && forall k :: 0 <= k < |t.args| ==> Valid(t.args[k])
    ensures forall k :: 0 <= k < |t.name| ==> !IsBracket(t.name[k])
  {
  }

  lemma {:induction false} PrintKeepsDepth(t: Type, s: string, pos: nat)
    requires Valid(t) && At(s, Print(t), pos)
    ensures DepthKept(s, pos, pos + |Print(t)|)
    decreases t, 0
  {
    hide *;
    ValidParts(t);
    if t.args == [] {
      DepthOfPlain(s, t.name, pos);
    } else {
      PrintParts(t, s, pos);
      var inner := pos + |t.name| + 1;
      DepthOfPlain(s, t.name, pos);
      JoinedKeepsDepth(t.args, s, inner);
      ClosingIs(Joined(t.args));
      DepthKeptInBrackets(s, inner - 1, inner + |Joined(t.args)|);
      DepthKeptJoin(s, pos, inner - 1, pos + |Print(t)|);
    }
  }

  lemma {:induction false} JoinedKeepsDepth(args: seq<Type>, s: string, pos: nat)
    requires (forall k :: 0 <= k < |args| ==> Valid(args[k])) && At(s, Joined(args), pos)
    ensures DepthKept(s, pos, pos + |Joined(args)|)
    decreases args, 0
  {
    hide *;
    NoArgs();
    if args == [] {
      AtBounds(s, "", pos);
      NothingKept(s, pos);
    } else {
      JoinedParts(args, s, pos);
      var n := |Print(args[0])|;
      PrintKeepsDepth(args[0], s, pos);
      RestKeepsDepth(args[1..], s, pos + n);
      DepthKeptJoin(s, pos, pos + n, pos + |Joined(args)|);
    }
  }

  lemma {:induction false} RestKeepsDepth(args: seq<Type>, s: string, pos: nat)
    requires (forall k :: 0 <= k < |args| ==> Valid(args[k])) && At(s, Rest(args), pos)
    ensures DepthKept(s, pos, pos + |Rest(args)|)
    decreases args, 1
  {
    hide *;
    NoArgs();
    if args == [] {
      AtBounds(s, "", pos);
      NothingKept(s, pos);
    } else {
      RestParts(args, s, pos);
      var n := |Print(args[0])|;
      CommaKeepsDepth(s, pos);
      PrintKeepsDepth(args[0], s, pos + 1);
      RestKeepsDepth(args[1..], s, pos + 1 + n);
      DepthKeptJoin(s, pos, pos + 1, pos + 1 + n);
      DepthKeptJoin(s, pos, pos + 1 + n, pos + |Rest(args)|);
    }
  }

  lemma CommaKeepsDepth(s: string, pos: nat)
    requires pos < |s| && s[pos] == ','
    ensures DepthKept(s, pos, pos + 1)
    ensures forall open :: open > 0 ==> Close(s, pos, open) == Close(s, pos + 1, open)
  {
  }

  lemma PrintIsBalanced(t: Type)
    requires Valid(t)
    ensures Balanced(Print(t))
  {
    assert Print(t)[0..0 + |Print(t)|] == Print(t);
    PrintKeepsDepth(t, Print(t), 0);
  }

  // ----- Scanning passes over printed types -----

  lemma {:induction false} ScanOverPlain(s: string, u: string, pos: nat, open: nat)
    requires At(s, u, pos) && open > 0 && forall k :: 0 <= k < |u| ==> !IsBracket(u[k])
    ensures Close(s, pos, open) == Close(s, pos + |u|, open)
    decreases |u|
  {
    if u != "" {
      AtChar(s, u, pos, 0);
      assert u == u[..1] + u[1..];
      AtSplit(s, u[..1], u[1..], pos);
      ScanOverPlain(s, u[1..], pos + 1, open);
    }
  }

  lemma ScanOverBrackets(s: string, a: nat, b: nat, open: nat)
    requires a < b < |s| && s[a] == '<' && open > 0 && Close(s, a + 1, open + 1) == Close(s, b, open + 1)
    requires s[b] == '>' || (s[b] == ' ' && b + 1 < |s| && s[b + 1] == '>')
    ensures Close(s, a, open) == Close(s, if s[b] == '>' then b + 1 else b + 2, open)
  {
    if s[b] == ' ' {
      assert Close(s, b, open + 1) == Close(s, b + 1, open + 1);
    }
  }

  lemma {:induction false} ScanOverPrint(t: Type, s: string, pos: nat, open: nat)
    requires Valid(t) && At(s, Print(t), pos) && open > 0
    ensures Close(s, pos, open) == Close(s, pos + |Print(t)|, open)
    decreases t, 0
  {
    hide *;
    ValidParts(t);
    if t.args == [] {
      ScanOverPlain(s, t.name, pos, open);
    } else {
      PrintParts(t, s, pos);
      var inner := pos + |t.name| + 1;
      ClosingIs(Joined(t.args));
      ScanOverPlain(s, t.name, pos, open);
      ScanOverJoined(t.args, s, inner, open + 1);
      ScanOverBrackets(s, inner - 1, inner + |Joined(t.args)|, open);
    }
  }

  lemma {:induction false} ScanOverJoined(args: seq<Type>, s: string, pos: nat, open: nat)
    requires (forall k :: 0 <= k < |args| ==> Valid(args[k])) && At(s, Joined(args), pos) && open > 0
    ensures Close(s, pos, open) == Close(s, pos + |Joined(args)|, open)
    decreases args, 0
  {
    hide *;
    NoArgs();
    if args != [] {
      JoinedParts(args, s, pos);
      ScanOverPrint(args[0], s, pos, open);
      ScanOverRest(args[1..], s, pos + |Print(args[0])|, open);
    }
  }

  lemma {:induction false} ScanOverRest(args: seq<Type>, s: string, pos: nat, open: nat)
    requires (forall k :: 0 <= k < |args| ==> Valid(args[k])) && At(s, Rest(args), pos) && open > 0
    ensures Close(s, pos, open) == Close(s, pos + |Rest(args)|, open)
    decreases args, 1
  {
    hide *;
    NoArgs();
    if args != [] {
      RestParts(args, s, pos);
      CommaKeepsDepth(s, pos);
      ScanOverPrint(args[0], s, pos + 1, open);
      ScanOverRest(args[1..], s, pos + 1 + |Print(args[0])|, open);
    }
  }

  // ----- Occurrences inside and outside -----

  lemma AtWithin(s: string, u: string, pos: nat, p: string, i: nat)
    requires At(s, u, pos) && At(s, p, i) && pos <= i && i + |p| <= pos + |u|
    ensures At(u, p, i - pos)
  {
    forall k | 0 <= k < |p| ensures u[i - pos + k] == p[k] {
      AtChar(s, u, pos, i - pos + k);
      AtChar(s, p, i, k);
    }
  }

  lemma AtThrough(s: string, u: string, pos: nat, p: string, j: nat)
    requires At(s, u, pos) && At(u, p, j)
    ensures At(s, p, pos + j)
  {
    forall k | 0 <= k < |p| ensures s[pos + j + k] == p[k] {
      AtChar(s, u, pos, j + k);
      AtChar(u, p, j, k);
    }
  }

  lemma AtSelf(u: string)
    ensures At(u, u, 0)
  {
  }

  lemma AtConcat(x: string, u: string, y: string)
    ensures At(x + u + y, u, |x|)
  {
    assert (x + u + y)[|x|..|x| + |u|] == u;
  }

  lemma PrefixChars(target: string, k: nat)
    requires PlainName(target) && k < |target| + 2
    ensures |Prefix(target)| == |target| + 2
    ensures Prefix(target)[k] == if k == 0 then ',' else if k == |target| + 1 then '<' else target[k - 1]
    ensures Prefix(target)[k] == ',' <==> k == 0
    ensures IsBracket(Prefix(target)[k]) <==> k == |target| + 1
  {
  }

  lemma PrefixOpensAtEnd(target: string)
    requires PlainName(target)
    ensures OpensAtEnd(Prefix(target))
  {
    PrefixChars(target, |target| + 1);
    forall k | 0 <= k < |target| + 1 ensures !IsBracket(Prefix(target)[k]) {
      PrefixChars(target, k);
    }
  }

  // ----- Where an occurrence lies -----

  /** An occurrence of the prefix lies among the arguments. */
  lemma OccursInArgs(t: Type, target: string, i: nat)
    requires Valid(t) && PlainName(target) && At(Print(t), Prefix(target), i)
    ensures t.args != [] && i > |t.name| && At(Joined(t.args), Prefix(target), i - |t.name| - 1)
  {
    hide Print, Joined, Closing, At, Prefix;
    var s, n := Print(t), |target| + 2;
    PrefixChars(target, 0);
    PrefixChars(target, n - 1);
    AtBounds(s, Prefix(target), i);
    AtChar(s, Prefix(target), i, 0);
    AtChar(s, Prefix(target), i, n - 1);
    ValidParts(t);
    AtSelf(s);
    assert forall q :: 0 <= q < |t.name| ==> t.name[q] != ',';
    assert t.args != [];
    PrintParts(t, s, 0);
    ClosingIs(Joined(t.args));
    var inner := |t.name| + 1;
    forall q | 0 <= q < |t.name| ensures s[q] != ',' {
      AtChar(s, t.name, 0, q);
    }
    assert forall q :: inner + |Joined(t.args)| <= q < |s| ==> s[q] != '<';
    AtWithin(s, Joined(t.args), inner, Prefix(target), i);
  }

  datatype Place = Here(k: nat) | Within(k: nat, i: nat)

  /** The occurrence is the comma before an argument to strip, or lies in the print of one argument. */
  ghost predicate Located(args: seq<Type>, target: string, j: nat, at: Place) {
    at.k < |args| &&
    match at
    case Here(k) => 0 < k && Removable(target, args[k]) && j + 1 == |Before(args, k)|
    case Within(k, i) => At(Print(args[k]), Prefix(target), i) && j == |Before(args, k)| + i
  }

  /** A printed type right after a comma: what its first characters say about it. */
  lemma StartsHere(s: string, x: Type, target: string, j: nat)
    requires Valid(x) && PlainName(target) && At(s, Prefix(target), j) && At(s, Print(x), j + 1)
    requires j + 1 + |Print(x)| == |s| || s[j + 1 + |Print(x)|] == ','
    ensures Removable(target, x)
  {
    hide Print, At, Prefix, Joined, Closing, Rest;
    var n, m := |x.name|, |target|;
    ValidParts(x);
    AtBounds(s, Prefix(target), j);
    PrefixChars(target, 0);
    if x.args != [] {
      PrintParts(x, s, j + 1);
    }
    forall k | 0 <= k < n && k <= m ensures x.name[k] == if k < m then target[k] else '<' {
      AtChar(s, x.name, j + 1, k);
      PrefixChars(target, k + 1);
      AtChar(s, Prefix(target), j, k + 1);
    }
    assert m < n ==> x.name[m] == '<' && IsBracket(x.name[m]);
    assert n <= m;
    PrefixChars(target, n + 1);
    AtChar(s, Prefix(target), j, n + 1);
    assert n == m && x.args != [];
    assert x.name == target;
  }

  lemma NoCrossing(s: string, target: string, j: nat, b: nat)
    requires PlainName(target) && At(s, Prefix(target), j) && j < b < |s| && s[b] == ','
    ensures j + |Prefix(target)| <= b
  {
    if b < j + |Prefix(target)| {
      PrefixChars(target, b - j);
      AtChar(s, Prefix(target), j, b - j);
    }
  }

  /** The parts of the arguments around argument k. */
  lemma ArgParts(args: seq<Type>, k: nat)
    requires k < |args|
    ensures var s, b, n := Joined(args), |Before(args, k)|, |Print(args[k])|;
            && At(s, Print(args[k]), b) && |Before(args, k + 1)| == b + n + 1
            && b + n <= |s| && (b + n < |s| <==> k + 1 < |args|) && (b + n < |s| ==> s[b + n] == ',')
  {
    hide *;
    var x, u, y := Before(args, k), Print(args[k]), Rest(args[k + 1..]);
    JoinedAt(args, k);
    AtConcat(x, u, y);
    BeforeNext(args, k);
    NoArgs();
    if k + 1 < |args| {
      AtConcat(x + u, y, "");
      assert x + u + y + "" == x + u + y;
      RestParts(args[k + 1..], Joined(args), |x + u|);
    } else {
      assert args[k + 1..] == [];
    }
  }

  lemma {:induction false} Locate(args: seq<Type>, target: string, j: nat, k: nat) returns (at: Place)
    requires PlainName(target) && k < |args| && forall i :: 0 <= i < |args| ==> Valid(args[i])
    requires At(Joined(args), Prefix(target), j) && (k == 0 || j + 1 >= |Before(args, k)|)
    ensures Located(args, target, j, at)
    decreases |args| - k
  {
    hide Joined, Before, Print, At, Prefix, Rest, Removable, PlainName, Valid;
    var s, b, n := Joined(args), |Before(args, k)|, |Print(args[k])|;
    ArgParts(args, k);
    BeforeFirst(args);
    AtBounds(s, Prefix(target), j);
    PrefixChars(target, 0);
    if k > 0 && j + 1 == b {
      StartsHere(s, args[k], target, j);
      at := Here(k);
    } else if j < b + n {
      if b + n < |s| {
        NoCrossing(s, target, j, b + n);
      }
      AtWithin(s, Print(args[k]), b, Prefix(target), j);
      at := Within(k, j - b);
    } else {
      at := Locate(args, target, j, k + 1);
    }
  }

  lemma BeforeFirst(args: seq<Type>)
    ensures Before(args, 0) == ""
  {
  }

  // ----- Cutting in a context -----

  lemma {:induction false} CloseInContext(x: string, s: string, y: string, pos: nat, open: nat)
    requires open > 0 && Close(s, pos, open).Some?
    ensures Close(x + s + y, |x| + pos, open) == Some(|x| + Close(s, pos, open).value)
    decreases |s| - pos
  {
    if pos < |s| {
      assert (x + s + y)[|x| + pos] == s[pos];
      if s[pos] == '<' {
        CloseInContext(x, s, y, pos + 1, open + 1);
      } else if s[pos] != '>' {
        CloseInContext(x, s, y, pos + 1, open);
      } else if open > 1 {
        CloseInContext(x, s, y, pos + 1, open - 1);
      }
    }
  }

  lemma CutInContext(x: string, s: string, y: string, a: nat, b: nat)
    requires a <= b <= |s|
    ensures (x + s + y)[..|x| + a] + (x + s + y)[|x| + b..] == x + (s[..a] + s[b..]) + y
  {
    var w := x + s + y;
    assert w[..|x| + a] == x + s[..a];
    assert w[|x| + b..] == s[b..] + y;
  }

  /** The second call of erase. */
  function Tidied(t: string, index: nat): string {
    if index < |t| && t[index] == ' ' && (index == 0 || t[index - 1] != '>') then t[..index] + t[index + 1..] else t
  }

  lemma ErasedIsTidied(s: string, i: nat, c: nat)
    requires i <= c < |s|
    ensures Erase(s, i, c) == Tidied(s[..i] + s[c + 1..], i)
  {
  }

  lemma TidiedInContext(x: string, t: string, y: string, i: nat)
    requires 1 <= i < |t|
    ensures Tidied(x + t + y, |x| + i) == x + Tidied(t, i) + y
  {
    assert (x + t + y)[|x| + i] == t[i] && (x + t + y)[|x| + i - 1] == t[i - 1];
    CutInContext(x, t, y, i, i + 1);
  }

  lemma EraseInContext(x: string, s: string, y: string, i: nat, c: nat)
    requires 1 <= i <= c && c + 1 < |s|
    ensures Erase(x + s + y, |x| + i, |x| + c) == x + Erase(s, i, c) + y
  {
    hide *;
    ErasedIsTidied(s, i, c);
    ErasedIsTidied(x + s + y, |x| + i, |x| + c);
    CutInContext(x, s, y, i, c + 1);
    TidiedInContext(x, s[..i] + s[c + 1..], y, i);
  }

  // ----- Stripping -----

  lemma {:induction false} StripRestSplits(target: string, a: seq<Type>, b: seq<Type>)
    ensures StripRest(target, a + b) == StripRest(target, a) + StripRest(target, b)
    decreases |a|
  {
    if a == [] {
      assert a + b == b;
    } else {
      StripRestSplits(target, a[1..], b);
      assert (a + b)[1..] == a[1..] + b && (a + b)[0] == a[0];
    }
  }

  /** Arguments that differ at k only in something to be stripped anyway. */
  lemma StripRestSame(target: string, a: seq<Type>, x: Type, x': Type, b: seq<Type>)
    requires Removable(target, x) == Removable(target, x') && Strip(target, x) == Strip(target, x')
    ensures StripRest(target, a + [x] + b) == StripRest(target, a + [x'] + b)
  {
    StripRestSplits(target, a + [x], b);
    StripRestSplits(target, a + [x'], b);
    StripRestSplits(target, a, [x]);
    StripRestSplits(target, a, [x']);
    assert [x][1..] == [] && [x'][1..] == [];
  }

  lemma StripRestWithout(target: string, a: seq<Type>, x: Type, b: seq<Type>)
    requires Removable(target, x)
    ensures StripRest(target, a + [x] + b) == StripRest(target, a + b)
  {
    StripRestSplits(target, a + [x], b);
    StripRestSplits(target, a, [x]);
    StripRestSplits(target, a, b);
    assert [x][1..] == [];
  }

  lemma StripAfter(target: string, t: Type, k: nat, x': Type)
    requires k < |t.args|
    requires Removable(target, t.args[k]) == Removable(target, x') && Strip(target, t.args[k]) == Strip(target, x')
    ensures Strip(target, t.(args := t.args[k := x'])) == Strip(target, t)
  {
    var args, args' := t.args, t.args[k := x'];
    if k == 0 {
      assert args'[1..] == args[1..];
    } else {
      var a, b := args[1..k], args[k + 1..];
      StripRestSame(target, a, args[k], x', b);
      assert args[1..] == a + [args[k]] + b && args'[1..] == a + [x'] + b;
    }
  }

  lemma StripWithout(target: string, t: Type, k: nat)
    requires 0 < k < |t.args| && Removable(target, t.args[k])
    ensures Strip(target, t.(args := t.args[..k] + t.args[k + 1..])) == Strip(target, t)
  {
    var args, args' := t.args, t.args[..k] + t.args[k + 1..];
    var a, b := args[1..k], args[k + 1..];
    StripRestWithout(target, a, args[k], b);
    assert args[1..] == a + [args[k]] + b && args'[1..] == a + b && args'[0] == args[0];
  }

  // ----- An occurrence cut out of a printed type leaves a printed type -----

  /** The print around argument k. */
  function Left(t: Type, k: nat): string
    requires k < |t.args|
  {
    t.name + "<" + Before(t.args, k)
  }

  function Right(t: Type, k: nat): string
    requires k < |t.args|
  {
    Rest(t.args[k + 1..]) + Closing(Joined(t.args))
  }

  lemma PrintAround(t: Type, k: nat)
    requires k < |t.args|
    ensures Print(t) == Left(t, k) + Print(t.args[k]) + Right(t, k)
    ensures |Left(t, k)| == |t.name| + 1 + |Before(t.args, k)|
  {
    JoinedAt(t.args, k);
    PrintIs(t);
    var b, u, r, c := Before(t.args, k), Print(t.args[k]), Rest(t.args[k + 1..]), Closing(Joined(t.args));
    assert Left(t, k) == t.name + "<" + b && Right(t, k) == r + c;
    hide *;
    Associate(t.name, b, u, r, c);
  }

  lemma Associate(n: string, b: string, u: string, r: string, c: string)
    ensures n + ("<" + (b + u + r + c)) == (n + "<" + b) + u + (r + c)
  {
  }

  lemma PrintEnds(t: Type)
    requires Valid(t)
    ensures |Print(t)| > 0 && (Print(t)[|Print(t)| - 1] == '>' <==> t.args != [])
  {
    if t.args != [] {
      PrintIs(t);
      ClosingIs(Joined(t.args));
    } else {
      assert !IsBracket(t.name[|t.name| - 1]);
    }
  }

  lemma JoinedEnds(args: seq<Type>)
    requires args != [] && forall k :: 0 <= k < |args| ==> Valid(args[k])
    ensures Closing(Joined(args)) == if args[|args| - 1].args != [] then " >" else ">"
  {
    var k := |args| - 1;
    JoinedAt(args, k);
    PrintEnds(args[k]);
    assert args[k + 1..] == [];
    hide *;
    NoArgs();
    LastOf(Before(args, k), Print(args[k]));
    ClosingOf(Joined(args));
  }

  lemma LastOf(x: string, u: string)
    requires u != ""
    ensures x + u + "" != "" && (x + u + "")[|x + u + ""| - 1] == u[|u| - 1]
  {
  }

  lemma ClosingOf(body: string)
    requires body != ""
    ensures Closing(body) == if body[|body| - 1] == '>' then " >" else ">"
  {
  }

  /** What cutting out an occurrence at i comes to: the close found, and the type then printed. */
  ghost predicate Cut(t: Type, target: string, i: nat, t': Type, c: nat) {
    && 1 <= i <= c && c + 1 < |Print(t)| && i + |Prefix(target)| <= c
    && Close(Print(t), i + |Prefix(target)|, 1) == Some(c)
    && Erase(Print(t), i, c) == Print(t')
    && Valid(t') && t'.name == t.name && t.args != [] && t'.args != []
    && Strip(target, t') == Strip(target, t)
  }

  lemma PrintOfReplaced(t: Type, k: nat, x': Type)
    requires Valid(t) && k < |t.args| && Valid(x') && t.args[k].args != [] && x'.args != []
    ensures Valid(t.(args := t.args[k := x']))
    ensures Print(t.(args := t.args[k := x'])) == Left(t, k) + Print(x') + Right(t, k)
  {
    var t' := t.(args := t.args[k := x']);
    ValidParts(t);
    assert Valid(t');
    assert t'.args[..k] == t.args[..k] && t'.args[k + 1..] == t.args[k + 1..] && t'.args[k] == x';
    assert Before(t'.args, k) == Before(t.args, k);
    hide Joined, Print, Rest, Before;
    JoinedEnds(t.args);
    JoinedEnds(t'.args);
    assert Left(t', k) == Left(t, k) && Right(t', k) == Right(t, k);
    PrintAround(t', k);
  }

  lemma CutMeans(t: Type, target: string, i: nat, t': Type, c: nat)
    requires Cut(t, target, i, t', c)
    ensures 1 <= i <= c && c + 1 < |Print(t)| && i + |Prefix(target)| <= c
    ensures Close(Print(t), i + |Prefix(target)|, 1) == Some(c) && Erase(Print(t), i, c) == Print(t')
    ensures Valid(t') && t.args != [] && t'.args != [] && Removable(target, t) == Removable(target, t')
    ensures Strip(target, t) == Strip(target, t')
  {
  }

  lemma CutWithin(t: Type, target: string, k: nat, j: nat, x': Type, c: nat)
    requires Valid(t) && k < |t.args| && Cut(t.args[k], target, j, x', c)
    ensures Cut(t, target, |Left(t, k)| + j, t.(args := t.args[k := x']), |Left(t, k)| + c)
  {
    hide Print, Left, Right, Close, Erase, Strip, Joined, Rest, Before, Prefix, Closing, Valid, Removable, StripRest, Tidied;
    var x, l, r := Print(t.args[k]), Left(t, k), Right(t, k);
    CutMeans(t.args[k], target, j, x', c);
    StripAfter(target, t, k, x');
    PrintAround(t, k);
    PrintOfReplaced(t, k, x');
    CloseInContext(l, x, r, j + |Prefix(target)|, 1);
    EraseInContext(l, x, r, j, c);
  }

  lemma ScanCloses(s: string, b: nat)
    requires b < |s| && (s[b] == '>' || (s[b] == ' ' && b + 1 < |s| && s[b + 1] == '>'))
    ensures Close(s, b, 1) == Some(if s[b] == '>' then b else b + 1)
  {
    if s[b] == ' ' {
      assert Close(s, b, 1) == Close(s, b + 1, 1);
    }
  }

  /** Scanning from just inside a printed type finds its last character. */
  lemma ScanFindsEnd(x: Type, s: string, pos: nat)
    requires Valid(x) && x.args != [] && At(s, Print(x), pos)
    ensures pos + |Print(x)| <= |s| && Close(s, pos + |x.name| + 1, 1) == Some(pos + |Print(x)| - 1)
  {
    hide *;
    ValidParts(x);
    PrintParts(x, s, pos);
    ClosingIs(Joined(x.args));
    var inner := pos + |x.name| + 1;
    ScanOverJoined(x.args, s, inner, 1);
    ScanCloses(s, inner + |Joined(x.args)|);
  }

  lemma JoinedAppend(a: seq<Type>, b: seq<Type>)
    requires a != []
    ensures Joined(a + b) == Joined(a) + Rest(b)
  {
    RestSplits(a[1..], b);
    assert (a + b)[1..] == a[1..] + b && (a + b)[0] == a[0];
  }

  lemma JoinedLast(args: seq<Type>)
    requires args != [] && forall k :: 0 <= k < |args| ==> Valid(args[k])
    ensures Joined(args) != ""
    ensures Joined(args)[|Joined(args)| - 1] == '>' <==> args[|args| - 1].args != []
  {
    JoinedEnds(args);
    var k := |args| - 1;
    JoinedAt(args, k);
    PrintEnds(args[k]);
    assert args[k + 1..] == [];
  }

  /** The type without argument k. */
  function Without(t: Type, k: nat): Type
    requires k < |t.args|
  {
    t.(args := t.args[..k] + t.args[k + 1..])
  }

  lemma ClosingBeforeRest(t: Type, k: nat)
    requires Valid(t) && 0 < k < |t.args|
    ensures k + 1 < |t.args| ==> Closing(Joined(Without(t, k).args)) == Closing(Joined(t.args))
    ensures Valid(Without(t, k)) && Without(t, k).args != []
  {
    ValidParts(t);
    JoinedEnds(t.args);
    assert forall j :: 0 <= j < |Without(t, k).args| ==> Without(t, k).args[j] == t.args[if j < k then j else j + 1];
    JoinedEnds(Without(t, k).args);
  }

  lemma TidiedAtEnd(t: Type, k: nat)
    requires Valid(t) && 0 < k < |t.args| && k + 1 == |t.args| && t.args[k].args != []
    ensures var l := t.name + "<" + Joined(t.args[..k]); Tidied(l + Right(t, k), |l|) == Print(Without(t, k))
  {
    var j := Joined(t.args[..k]);
    ValidParts(t);
    JoinedLast(t.args[..k]);
    JoinedEnds(t.args);
    assert t.args[k + 1..] == [];
    assert Right(t, k) == " >" && Without(t, k).args == t.args[..k];
    PrintIs(Without(t, k));
    hide *;
    TidyBeforeClosing(t.name, j);
  }

  lemma TidiedInside(t: Type, k: nat)
    requires Valid(t) && 0 < k && k + 1 < |t.args|
    ensures var l := t.name + "<" + Joined(t.args[..k]); Tidied(l + Right(t, k), |l|) == Print(Without(t, k))
  {
    var j, after := Joined(t.args[..k]), t.args[k + 1..];
    var r, c := Rest(after), Closing(Joined(t.args));
    ClosingBeforeRest(t, k);
    assert Right(t, k) == r + c;
    hide *;
    JoinedAppend(t.args[..k], after);
    PrintIs(Without(t, k));
    JoinedCons(after[0], after[1..]);
    assert after == [after[0]] + after[1..];
    TidyBeforeComma(t.name + "<" + j, r + c);
    AssociateRest(t.name, j, r, c);
  }

  /** Between the parts around an argument cut out with its comma, a space may have to go. */
  lemma TidiedIsPrint(t: Type, k: nat)
    requires Valid(t) && 0 < k < |t.args| && t.args[k].args != []
    ensures var l := t.name + "<" + Joined(t.args[..k]); Tidied(l + Right(t, k), |l|) == Print(Without(t, k))
  {
    hide *;
    if k + 1 == |t.args| {
      TidiedAtEnd(t, k);
    } else {
      TidiedInside(t, k);
    }
  }

  lemma AssociateRest(n: string, j: string, r: string, c: string)
    ensures n + ("<" + ((j + r) + c)) == (n + "<" + j) + (r + c)
  {
  }

  lemma TidyBeforeComma(l: string, r: string)
    requires r != "" && r[0] == ','
    ensures Tidied(l + r, |l|) == l + r
  {
  }

  lemma TidyBeforeClosing(n: string, j: string)
    requires j != ""
    ensures var l := n + "<" + j; Tidied(l + " >", |l|) == n + ("<" + (j + Closing(j)))
  {
    var l := n + "<" + j;
    assert l[|l| - 1] == j[|j| - 1];
    assert (l + " >")[..|l|] == l && (l + " >")[|l| + 1..] == ">";
    assert l + ">" == n + ("<" + (j + ">")) && l + " >" == n + ("<" + (j + " >"));
  }

  lemma PrintBeforeArg(t: Type, k: nat)
    requires 0 < k < |t.args|
    ensures var l := t.name + "<" + Joined(t.args[..k]);
            && |Left(t, k)| == |l| + 1 && Left(t, k) == l + ","
            && Print(t) == l + ("," + Print(t.args[k])) + Right(t, k)
  {
    var l := t.name + "<" + Joined(t.args[..k]);
    BeforeIs(t.args, k);
    PrintAround(t, k);
    assert Left(t, k) == t.name + "<" + (Joined(t.args[..k]) + ",");
    hide *;
    assert Left(t, k) == l + ",";
    AssociateComma(l, Print(t.args[k]), Right(t, k));
  }

  lemma AssociateComma(l: string, u: string, r: string)
    ensures (l + ",") + u + r == l + ("," + u) + r
  {
  }

  lemma RightIsNotEmpty(t: Type, k: nat)
    requires k < |t.args|
    ensures Right(t, k) != ""
  {
    ClosingIs(Joined(t.args));
  }

  lemma CutMiddle(l: string, u: string, r: string)
    ensures (l + u + r)[..|l|] + (l + u + r)[|l| + |u|..] == l + r
  {
  }

  lemma CutHereErases(t: Type, k: nat)
    requires Valid(t) && 0 < k < |t.args| && t.args[k].args != []
    ensures var l, n := |Left(t, k)|, |Print(t.args[k])|;
            && l > 1 && l + n < |Print(t)|
            && Erase(Print(t), l - 1, l - 1 + n) == Print(Without(t, k))
  {
    hide *;
    var x, l := t.args[k], t.name + "<" + Joined(t.args[..k]);
    PrintAround(t, k);
    PrintBeforeArg(t, k);
    RightIsNotEmpty(t, k);
    ErasedIsTidied(Print(t), |l|, |l| + |Print(x)|);
    CutMiddle(l, "," + Print(x), Right(t, k));
    TidiedIsPrint(t, k);
  }

  lemma CutHereCloses(t: Type, k: nat)
    requires Valid(t) && k < |t.args| && t.args[k].args != []
    ensures Close(Print(t), |Left(t, k)| + |t.args[k].name| + 1, 1) == Some(|Left(t, k)| + |Print(t.args[k])| - 1)
    ensures |t.args[k].name| + 1 < |Print(t.args[k])|
  {
    hide *;
    ValidParts(t);
    PrintAround(t, k);
    AtConcat(Left(t, k), Print(t.args[k]), Right(t, k));
    ScanFindsEnd(t.args[k], Print(t), |Left(t, k)|);
    PrintIs(t.args[k]);
    ClosingIs(Joined(t.args[k].args));
  }

  lemma CutHere(t: Type, target: string, k: nat)
    requires Valid(t) && PlainName(target) && 0 < k < |t.args| && Removable(target, t.args[k])
    ensures Cut(t, target, |Left(t, k)| - 1, Without(t, k), |Left(t, k)| - 1 + |Print(t.args[k])|)
  {
    hide Print, Left, Right, Close, Erase, Strip, Joined, Rest, Before, Prefix, Closing, Valid, StripRest, Tidied, PlainName;
    PrefixChars(target, 0);
    StripWithout(target, t, k);
    CutHereErases(t, k);
    CutHereCloses(t, k);
    ClosingBeforeRest(t, k);
  }

  /** Any occurrence cut out leaves the print of a type that strips to the same. */
  lemma {:induction false} CutIsType(t: Type, target: string, i: nat) returns (t': Type, c: nat)
    requires Valid(t) && PlainName(target) && At(Print(t), Prefix(target), i)
    ensures Cut(t, target, i, t', c)
    decreases t
  {
    hide *;
    OccursInArgs(t, target, i);
    ValidParts(t);
    BeforeFirst(t.args);
    var j := i - |t.name| - 1;
    var at := Locate(t.args, target, j, 0);
    LocatedMeans(t.args, target, j, at);
    PrintAround(t, at.k);
    if at.Here? {
      CutHere(t, target, at.k);
      t', c := Without(t, at.k), |Left(t, at.k)| - 1 + |Print(t.args[at.k])|;
    } else {
      var x', c' := CutIsType(t.args[at.k], target, at.i);
      CutWithin(t, target, at.k, at.i, x', c');
      t', c := t.(args := t.args[at.k := x']), |Left(t, at.k)| + c';
    }
  }

  lemma LocatedMeans(args: seq<Type>, target: string, j: nat, at: Place)
    requires Located(args, target, j, at)
    ensures at.k < |args|
    ensures at.Here? ==> 0 < at.k && Removable(target, args[at.k]) && j + 1 == |Before(args, at.k)|
    ensures at.Within? ==> At(Print(args[at.k]), Prefix(target), at.i) && j == |Before(args, at.k)| + at.i
  {
  }

  // ----- Nothing to strip -----

  lemma {:induction false} StripRestKeeps(target: string, args: seq<Type>)
    requires forall k :: 0 <= k < |args| ==> !Removable(target, args[k]) && Strip(target, args[k]) == args[k]
    ensures StripRest(target, args) == args
    decreases |args|
  {
    if args != [] {
      StripRestKeeps(target, args[1..]);
      assert args == [args[0]] + args[1..];
    }
  }

  lemma RemovableOccurs(t: Type, target: string, k: nat)
    requires Valid(t) && PlainName(target) && 0 < k < |t.args| && Removable(target, t.args[k])
    ensures At(Print(t), Prefix(target), |Left(t, k)| - 1)
  {
    var x, l := t.args[k], t.name + "<" + Joined(t.args[..k]);
    var rest := Joined(x.args) + Closing(Joined(x.args));
    assert Prefix(target) == "," + target + "<";
    hide Print, Joined, Closing, Left, Right, At, Prefix;
    PrintIs(x);
    PrintBeforeArg(t, k);
    assert "," + Print(x) == ("," + target + "<") + rest;
    AtConcat(l, "," + Print(x), Right(t, k));
    AtSplit(Print(t), "," + target + "<", rest, |l|);
  }

  lemma ArgOccurs(t: Type, k: nat, p: string, i: nat)
    requires k < |t.args| && At(Print(t.args[k]), p, i)
    ensures At(Print(t), p, |Left(t, k)| + i)
  {
    hide *;
    PrintAround(t, k);
    AtConcat(Left(t, k), Print(t.args[k]), Right(t, k));
    AtThrough(Print(t), Print(t.args[k]), |Left(t, k)|, p, i);
  }

  lemma ArgIsFree(t: Type, target: string, k: nat)
    requires Valid(t) && PlainName(target) && k < |t.args| && !Contains(Print(t), Prefix(target))
    ensures !Contains(Print(t.args[k]), Prefix(target))
    ensures k > 0 ==> !Removable(target, t.args[k])
  {
    hide Print, Prefix, Left, At;
    if Contains(Print(t.args[k]), Prefix(target)) {
      var i: nat :| At(Print(t.args[k]), Prefix(target), i);
      ArgOccurs(t, k, Prefix(target), i);
    }
    if k > 0 && Removable(target, t.args[k]) {
      PrintAround(t, k);
      RemovableOccurs(t, target, k);
    }
  }

  lemma {:induction false} NothingToStrip(t: Type, target: string)
    requires Valid(t) && PlainName(target) && !Contains(Print(t), Prefix(target))
    ensures Strip(target, t) == t
    decreases t
  {
    forall k | 0 <= k < |t.args|
      ensures Strip(target, t.args[k]) == t.args[k] && (k > 0 ==> !Removable(target, t.args[k]))
    {
      ArgIsFree(t, target, k);
      NothingToStrip(t.args[k], target);
    }
    if t.args != [] {
      StripRestKeeps(target, t.args[1..]);
      assert t.args == [t.args[0]] + t.args[1..];
    }
  }

  // ----- The main result -----

  lemma EndOfCut(t: Type, target: string, i: nat, t': Type, c: nat)
    requires Valid(t) && Balanced(Print(t)) && OpensAtEnd(Prefix(target)) && At(Print(t), Prefix(target), i)
    requires Cut(t, target, i, t', c)
    ensures EndOf(Print(t), Prefix(target), i) == c && |Print(t')| < |Print(t)|
  {
    CutMeans(t, target, i, t', c);
  }

  /** removeParameter on a printed type gives the print of the type without the arguments to strip, at every depth. */
  lemma {:induction false} RemovingIsStripping(t: Type, target: string)
    requires Valid(t) && PlainName(target)
    ensures Balanced(Print(t)) && OpensAtEnd(Prefix(target))
    ensures Removed(Print(t), Prefix(target)) == Print(Strip(target, t))
    decreases |Print(t)|
  {
    hide Print, Prefix, Strip, At, Valid, PlainName, Balanced, OpensAtEnd, Removed, Turn, Erase, Close, Find;
    var s, p := Print(t), Prefix(target);
    PrintIsBalanced(t);
    PrefixOpensAtEnd(target);
    if i :| Find(s, p, 0) == Some(i) {
      var t', c := CutIsType(t, target, i);
      EndOfCut(t, target, i, t', c);
      RemovedAfter(s, p, i);
      RemovingIsStripping(t', target);
    } else {
      RemovedAtEnd(s, p);
      NothingToStrip(t, target);
    }
  }
}
